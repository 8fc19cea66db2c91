/** A walk that fails: an entity points at a grant, and another namespace of the tenant gives the grant again. */
module StrayGrants {
  import opened Model
  import opened Projection
  import opened Ledger
  import opened Operations
  import opened Runs
  import opened Commits
  import opened Reach
  import opened Relations
  import Graph
  import Serial

  /******* The run *******/

  /** An entity, and a relation from it to a grant, made in the scope that gave the grant. */
  predicate PointsAtGrant(space: Obj, grant: Obj, entity: Obj, rel: Obj, a: Who) {
    && Minted(entity.id) && Minted(rel.id)
    && space.id != entity.id && space.id != rel.id && entity.id != rel.id
    && NewObject(entity, Entity, a, 3) && NewObject(rel, Relation, a, 3)
    && entity.body.supersedes == [] && rel.body.supersedes == []
    && ValidInterval(entity) && ValidInterval(rel)
    && RefsInScope(map[space.id := space, grant.id := grant], a, entity)
    && RefsInScope(map[space.id := space, grant.id := grant, entity.id := entity], a, rel)
    && rel.body.sourceEntity == Some(entity.id) && rel.body.targetEntity == Some(grant.id)
  }

  /** The calls of the run: a space, a grant of it, an entity, a relation to the grant, the grant again. */
  function StrayCalls(space: Obj, one: Obj, entity: Obj, rel: Obj, two: Obj, a: Who, b: Who, agent: string): seq<Call> {
    [SpaceCall(space, a), GrantCall(space.id, agent, one, a, 2), MakeCall(EntityAdded, entity, a, 3),
     MakeCall(RelationAdded, rel, a, 3), GrantCall(space.id, agent, two, b, 3)]
  }

  lemma ServedFive(h: Hash, c: Call, d: Call, e: Call, f: Call, g: Call)
    ensures Serial.Served(h, [c, d]) == Serial.Serve(h, Serial.Serve(h, START, c), d)
    ensures Serial.Served(h, [c, d, e]) == Serial.Serve(h, Serial.Served(h, [c, d]), e)
    ensures Serial.Served(h, [c, d, e, f]) == Serial.Serve(h, Serial.Served(h, [c, d, e]), f)
    ensures Serial.Served(h, [c, d, e, f, g]) == Serial.Serve(h, Serial.Served(h, [c, d, e, f]), g)
  {
    Serial.ServedThree(h, c, d, e);
    Serial.ServedNext(h, [c, d, e], f);
    assert [c, d, e] + [f] == [c, d, e, f];
    Serial.ServedNext(h, [c, d, e, f], g);
    assert [c, d, e, f] + [g] == [c, d, e, f, g];
  }

  lemma ServeGranted(h: Hash, space: Obj, one: Obj, a: Who, agent: string)
    requires Minted(space.id) && NewObject(space, Space, a, 1) && space.body.supersedes == []
    requires ValidInterval(space) && RefsInScope(map[], a, space) && FirstGrant(one, a, 2, space.id, agent)
    ensures var s := Serial.Serve(h, Serial.Serve(h, START, SpaceCall(space, a)),
                                  GrantCall(space.id, agent, one, a, 2));
            Quiet(h, s) && s.objects == map[space.id := space, one.id := one] && s.used == {space.id}
  {
    ServeSpace(h, space, a);
    var s := Serial.Serve(h, START, SpaceCall(space, a));
    ServeGrant(h, s, space.id, agent, one, a, 2);
  }

  lemma PointersReady(space: Obj, one: Obj, entity: Obj, rel: Obj, a: Who)
    requires PointsAtGrant(space, one, entity, rel, a)
    ensures Ready(map[space.id := space, one.id := one], {space.id}, EntityAdded, entity, a, 3)
    ensures Ready(map[space.id := space, one.id := one][entity.id := entity], {space.id} + {entity.id},
                  RelationAdded, rel, a, 3)
  {
    Third(space.id, space, one.id, one, entity.id, entity);
  }

  lemma ServePointers(h: Hash, s: System, mid: System, space: Obj, one: Obj, entity: Obj, rel: Obj, a: Who)
    requires Quiet(h, s) && mid == Serial.Serve(h, s, MakeCall(EntityAdded, entity, a, 3))
    requires Ready(s.objects, s.used, EntityAdded, entity, a, 3)
    requires Ready(s.objects[entity.id := entity], s.used + {entity.id}, RelationAdded, rel, a, 3)
    ensures var later := Serial.Serve(h, mid, MakeCall(RelationAdded, rel, a, 3));
            Quiet(h, later) && later.objects == s.objects[entity.id := entity][rel.id := rel]
  {
    ServeMade(h, s, EntityAdded, entity, a, 3);
    ServeMade(h, mid, RelationAdded, rel, a, 3);
  }

  lemma Third(i: Id, x: Obj, j: Id, y: Obj, k: Id, z: Obj)
    ensures map[i := x, j := y][k := z] == map[i := x, j := y, k := z]
  {
  }

  lemma GivenAgain(i: Id, x: Obj, g: Id, one: Obj, j: Id, y: Obj, k: Id, z: Obj, two: Obj)
    requires g != i && g != j && g != k
    ensures map[i := x, g := one][j := y][k := z][g := two] == map[i := x, j := y, k := z, g := two]
  {
  }

  lemma SpaceIsThere(space: Obj, one: Obj, entity: Obj, rel: Obj, two: Obj, a: Who, b: Who, agent: string)
    requires Regrants(space, one, two, a, b, agent) && PointsAtGrant(space, one, entity, rel, a)
    ensures SpaceOfTenant(map[space.id := space, one.id := one][entity.id := entity][rel.id := rel], b, space.id)
    ensures two.id == one.id && two.id != space.id && two.id != entity.id && two.id != rel.id
  {
  }

  lemma StrayedObjects(space: Obj, one: Obj, entity: Obj, rel: Obj, two: Obj, a: Who, b: Who, agent: string)
    requires Regrants(space, one, two, a, b, agent) && PointsAtGrant(space, one, entity, rel, a)
    ensures var objs := map[space.id := space, one.id := one][entity.id := entity][rel.id := rel];
            && SpaceOfTenant(objs, b, space.id)
            && objs[two.id := two] == map[space.id := space, entity.id := entity, rel.id := rel, two.id := two]
  {
    SpaceIsThere(space, one, entity, rel, two, a, b, agent);
    GivenAgain(space.id, space, two.id, one, entity.id, entity, rel.id, rel, two);
  }

  lemma StrayRun(h: Hash, space: Obj, one: Obj, entity: Obj, rel: Obj, two: Obj, a: Who, b: Who, agent: string)
    requires Regrants(space, one, two, a, b, agent) && PointsAtGrant(space, one, entity, rel, a)
    ensures var s := Serial.Served(h, StrayCalls(space, one, entity, rel, two, a, b, agent));
            && Quiet(h, s)
            && s.objects == map[space.id := space, entity.id := entity, rel.id := rel, two.id := two]
  {
    var c, d := SpaceCall(space, a), GrantCall(space.id, agent, one, a, 2);
    var e, f := MakeCall(EntityAdded, entity, a, 3), MakeCall(RelationAdded, rel, a, 3);
    ServedFive(h, c, d, e, f, GrantCall(space.id, agent, two, b, 3));
    ServeGranted(h, space, one, a, agent);
    var s2 := Serial.Served(h, [c, d]);
    PointersReady(space, one, entity, rel, a);
    ServePointers(h, s2, Serial.Served(h, [c, d, e]), space, one, entity, rel, a);
    StrayedObjects(space, one, entity, rel, two, a, b, agent);
    ServeGrant(h, Serial.Served(h, [c, d, e, f]), space.id, agent, two, b, 3);
  }

  /******* The walk *******/

  /** The scope has one relation: from a visible entity to a readable grant of another namespace. */
  predicate OnlyStray(v: Graph.View, e: Id, r: Id, g: Id) {
    && v.direction != Graph.Incoming && v.relType.None?
    && Graph.Visible(v, e) && Graph.Visible(v, r) && IsStrayGrant(v, g) && v.canRead(v.objs[g])
    && v.objs[r].kind == Relation
    && v.objs[r].body.sourceEntity == Some(e) && v.objs[r].body.targetEntity == Some(g)
    && forall id :: id in v.objs && v.objs[id].kind == Relation ==> id == r
  }

  lemma {:induction false} OnlyTwo(v: Graph.View, e: Id, r: Id, g: Id, k: nat)
    requires OnlyStray(v, e, r, g)
    ensures Within(Graph.Adjacent(v), e, k) <= {e, g}
    decreases k
  {
    if k > 0 {
      OnlyTwo(v, e, r, g, k - 1);
      StepsOfTwo(v, e, r, g, Within(Graph.Adjacent(v), e, k - 1));
    }
  }

  lemma StepsOfTwo(v: Graph.View, e: Id, r: Id, g: Id, nearer: set<Id>)
    requires OnlyStray(v, e, r, g)
    ensures StepAll(Graph.Adjacent(v), nearer) <= {e, g}
  {
    forall n | n in StepAll(Graph.Adjacent(v), nearer) ensures n in {e, g} {
      var m :| m in nearer && n in Graph.Adjacent(v)(m);
      var id :| id in Graph.Incident(v, m) && n in Graph.Ends(v.objs[id]);
      assert id == r;
    }
  }

  lemma StrayIsMet(v: Graph.View, e: Id, r: Id, g: Id, k: nat)
    requires OnlyStray(v, e, r, g) && k > 0
    ensures MeetsStray(v, e, k)
  {
    assert Graph.Follows(v, v.objs[r], e) && r in Graph.Incident(v, e);
    assert g in Graph.Ends(v.objs[r]) && g in Graph.Adjacent(v)(e);
    assert Within(Graph.Adjacent(v), e, 0) == {e};
    assert g in Within(Graph.Adjacent(v), e, 1);
    WithinGrows(Graph.Adjacent(v), e, 1, k);
  }

  lemma StraySteps(v: Graph.View, e: Id, r: Id, g: Id, hops: nat)
    requires OnlyStray(v, e, r, g) && AllJoined(v.objs) && hops >= 2
    ensures Graph.Strays(v, e, hops)
  {
    StrayIsMet(v, e, r, g, hops - 1);
    JoinedStrays(v, e, hops);
  }

  lemma FewNodes(v: Graph.View, e: Id, r: Id, g: Id, hops: nat, nodeLimit: int)
    requires OnlyStray(v, e, r, g) && nodeLimit >= 2
    ensures Graph.FewEnough(v, e, hops, nodeLimit)
  {
    OnlyTwo(v, e, r, g, hops);
    AtMostTwo(Within(Graph.Adjacent(v), e, hops), e, g);
  }

  lemma AtMostTwo(s: set<Id>, e: Id, g: Id)
    requires s <= {e, g}
    ensures |s| <= 2
  {
    assert s == {} || s == {e} || s == {g} || s == {e, g};
  }

  lemma StrayView(h: Hash, s: System, v: Graph.View)
    requires Invariant(h, s) && v.objs == s.objects
    ensures Graph.WellFormed(v) && AllJoined(v.objs)
  {
    LiveViewClosed(s.ledger, v);
    LiveJoined(s.ledger);
  }

  /** A reader of all that the scope made and of the grant, looking along every relation out of an entity. */
  predicate ReadsAll(v: Graph.View, entity: Obj, rel: Obj, two: Obj, a: Who) {
    && v.tenant == a.tenant && v.namespace == a.namespace && v.relType.None? && v.direction != Graph.Incoming
    && v.canRead(entity) && v.canRead(rel) && v.canRead(two)
  }

  /** What the walk needs of the objects that the run made. */
  predicate StrayParts(space: Obj, entity: Obj, rel: Obj, two: Obj, a: Who) {
    && space.kind == Space && entity.kind == Entity && rel.kind == Relation && two.kind == Grant
    && InScope(entity, a.tenant, a.namespace) && InScope(rel, a.tenant, a.namespace) && two.namespace != a.namespace
    && space.id != entity.id && space.id != rel.id && space.id != two.id
    && entity.id != rel.id && entity.id != two.id && rel.id != two.id
    && rel.body.sourceEntity == Some(entity.id) && rel.body.targetEntity == Some(two.id)
  }

  lemma PartsOfRun(space: Obj, one: Obj, entity: Obj, rel: Obj, two: Obj, a: Who, b: Who, agent: string)
    requires Regrants(space, one, two, a, b, agent) && PointsAtGrant(space, one, entity, rel, a)
    ensures StrayParts(space, entity, rel, two, a)
  {
  }

  lemma StrayIsOnly(space: Obj, entity: Obj, rel: Obj, two: Obj, a: Who, v: Graph.View)
    requires StrayParts(space, entity, rel, two, a) && ReadsAll(v, entity, rel, two, a)
    requires v.objs == map[space.id := space, entity.id := entity, rel.id := rel, two.id := two]
    ensures OnlyStray(v, entity.id, rel.id, two.id)
  {
  }

  lemma StrayedWalk(h: Hash, space: Obj, one: Obj, entity: Obj, rel: Obj, two: Obj, a: Who, b: Who, agent: string,
                    v: Graph.View, hops: nat, nodeLimit: int)
    requires Regrants(space, one, two, a, b, agent) && PointsAtGrant(space, one, entity, rel, a)
    requires v.objs == Serial.Served(h, StrayCalls(space, one, entity, rel, two, a, b, agent)).objects
    requires ReadsAll(v, entity, rel, two, a) && hops >= 2 && nodeLimit >= 2
    ensures Graph.WellFormed(v)
    ensures Graph.Strays(v, entity.id, hops) && Graph.FewEnough(v, entity.id, hops, nodeLimit)
  {
    StrayRun(h, space, one, entity, rel, two, a, b, agent);
    StrayView(h, Serial.Served(h, StrayCalls(space, one, entity, rel, two, a, b, agent)), v);
    PartsOfRun(space, one, entity, rel, two, a, b, agent);
    StrayIsOnly(space, entity, rel, two, a, v);
    StraySteps(v, entity.id, rel.id, two.id, hops);
    FewNodes(v, entity.id, rel.id, two.id, hops, nodeLimit);
  }

  /** After that run a reader of all of it who walks from the entity, two steps or more, gets nothing. */
  method StrayedQuery(ghost h: Hash, ghost space: Obj, ghost one: Obj, entity: Obj, ghost rel: Obj, ghost two: Obj,
                      ghost a: Who, ghost b: Who, ghost agent: string, v: Graph.View, order: seq<Id>, maxHops: int,
                      hopLimit: int, nodeLimit: int)
    returns (r: Graph.Found)
    requires Regrants(space, one, two, a, b, agent) && PointsAtGrant(space, one, entity, rel, a)
    requires v.objs == Serial.Served(h, StrayCalls(space, one, entity, rel, two, a, b, agent)).objects
    requires ReadsAll(v, entity, rel, two, a) && Graph.Listed(v, order)
    requires maxHops >= 2 && hopLimit >= 2 && nodeLimit >= 2
    ensures r.NotFound?
  {
    StrayedWalk(h, space, one, entity, rel, two, a, b, agent, v, Graph.Least(maxHops, hopLimit), nodeLimit);
    r := Graph.QueryGraph(v, order, entity.id, maxHops, hopLimit, nodeLimit);
  }
}
