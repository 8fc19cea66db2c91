/** Building a context envelope from the retrieved objects. */
module Envelope {
  import opened Model
  import opened Collapse
  import opened Context
  import opened Folding
  import opened Tally
  import Ranking
  import Temporal

  /** `budget` is present when packing into a budget is enabled. */
  datatype Config = Config(pin: bool, collapse: bool, budget: Option<int>, continuation: bool)

  datatype Reason = HistoryCollapsed | TokenLimit | ContinuationAvailable | ContradictionUnavailable

  datatype Envelope = Envelope(
    items: seq<Item>,
    pinned: seq<Id>,
    groups: seq<Group>,
    refs: set<string>,
    incomplete: bool,
    reasons: set<Reason>,
    tokens: nat)

  predicate FoldsHistory(groups: seq<Group>) {
    exists g :: g in groups && g.kind == History
  }

  predicate Folded(groups: seq<Group>, id: Id) {
    exists g :: g in groups && id in g.collapsed
  }

  /** Delivered inline, or behind the handle of a group. */
  predicate Reachable(e: Envelope, id: Id) {
    id in ItemIds(e.items) || Folded(e.groups, id) || exists g :: g in e.groups && g.canonical == id
  }

  ghost predicate OnceEach(items: seq<Item>) {
    forall id :: multiset(ItemIds(items))[id] <= 1
  }

  lemma {:induction false} FoldedIn(groups: seq<Group>, id: Id)
    ensures id in FoldedIds(groups) <==> Folded(groups, id)
    decreases |groups|
  {
    if groups != [] {
      FoldedIn(groups[..|groups| - 1], id);
      assert groups == groups[..|groups| - 1] + [groups[|groups| - 1]];
    }
  }

  lemma IdIn(items: seq<Item>, i: Item)
    ensures i in items ==> i.id in ItemIds(items)
  {
    if i in items {
      var n :| 0 <= n < |items| && items[n] == i;
      assert ItemIds(items)[n] == i.id;
    }
  }

  lemma Carrier(items: seq<Item>, id: Id) returns (i: Item)
    requires id in ItemIds(items)
    ensures i in items && i.id == id
  {
    var n :| 0 <= n < |items| && ItemIds(items)[n] == id;
    i := items[n];
  }

  /** The kept objects, followed by the pinned ones that are not among them. */
  method WithPinned(kept: seq<Obj>, contra: seq<Obj>) returns (shown: seq<Obj>)
    requires DistinctIds(kept)
    ensures DistinctIds(shown) && kept <= shown
    ensures forall c :: c in contra ==> c.id in Ids(shown)
    ensures forall o :: o in shown ==> o in kept || o in contra
  {
    shown := kept;
    for n := 0 to |contra|
      invariant DistinctIds(shown) && kept <= shown
      invariant forall m :: 0 <= m < n ==> contra[m].id in Ids(shown)
      invariant forall o :: o in shown ==> o in kept || o in contra
    {
      if contra[n].id !in Ids(shown) {
        IdPushed(shown, contra[n]);
        shown := shown + [contra[n]];
      }
    }
  }

  lemma IdPushed(objs: seq<Obj>, o: Obj)
    requires DistinctIds(objs) && o.id !in Ids(objs)
    ensures DistinctIds(objs + [o]) && Ids(objs + [o]) == Ids(objs) + [o.id]
  {
    assert Ids(objs + [o]) == Ids(objs) + [o.id];
    assert o.id !in multiset(Ids(objs));
    forall id ensures multiset(Ids(objs + [o]))[id] <= 1 {
      assert multiset(Ids(objs))[id] <= 1;
    }
  }

  /** The items of some objects carry the ids of the objects. */
  lemma ItemsOf(shown: seq<Obj>, cost: Obj -> nat)
    requires DistinctIds(shown)
    ensures ItemIds(Map(ItemOf(cost), shown)) == Ids(shown)
    ensures OnceEach(Map(ItemOf(cost), shown))
    ensures forall o :: o in shown ==> ItemOf(cost)(o) in Map(ItemOf(cost), shown)
    ensures forall i :: i in Map(ItemOf(cost), shown) ==> Shows(shown, cost, i)
  {
    var items := Map(ItemOf(cost), shown);
    assert ItemIds(items) == Ids(shown);
    forall o | o in shown ensures ItemOf(cost)(o) in items {
      var n :| 0 <= n < |shown| && shown[n] == o;
      assert items[n] == ItemOf(cost)(o);
    }
    forall i | i in items ensures Shows(shown, cost, i) {
      var n :| 0 <= n < |items| && items[n] == i;
      assert shown[n] in shown;
    }
  }

  predicate Shows(shown: seq<Obj>, cost: Obj -> nat, i: Item) {
    exists o :: o in shown && i == ItemOf(cost)(o)
  }

  /** Items that are not kept weigh nothing among those that must be. */
  lemma {:induction false} DroppedWeighNothing(dropped: seq<Item>, pins: seq<Id>)
    requires forall i :: i in dropped ==> !Must(pins, i)
    ensures Sum(MustTokens(pins), dropped) == 0
    decreases |dropped|
  {
    if dropped != [] {
      DroppedWeighNothing(dropped[..|dropped| - 1], pins);
    }
  }

  /** How a delivered and a dropped part make up the items. */
  lemma Parts(items: seq<Item>, chosen: seq<Item>, dropped: seq<Item>, sorted: seq<Item>, pins: seq<Id>)
    requires OnceEach(items) && multiset(chosen) + multiset(dropped) == multiset(items) &&
             multiset(sorted) == multiset(chosen)
    requires forall i :: i in dropped ==> !Must(pins, i)
    ensures OnceEach(sorted)
    ensures forall i :: i in items <==> i in sorted || i in dropped
    ensures Sum(Tokens, sorted) == Sum(Tokens, chosen)
    ensures Sum(MustTokens(pins), sorted) == Sum(MustTokens(pins), items)
  {
    assert multiset(sorted + dropped) == multiset(items);
    MapRearranged(ItemId, sorted + dropped, items);
    MapConcat(ItemId, sorted, dropped);
    assert multiset(ItemIds(sorted)) <= multiset(ItemIds(items));
    forall id ensures multiset(ItemIds(sorted))[id] <= 1 {
      assert multiset(ItemIds(sorted))[id] <= multiset(ItemIds(items))[id];
    }
    forall i ensures i in items <==> i in sorted || i in dropped {
      assert i in multiset(items) <==> i in multiset(sorted + dropped);
    }
    SumRearranged(Tokens, sorted, chosen);
    SumRearranged(MustTokens(pins), sorted + dropped, items);
    SumConcat(MustTokens(pins), sorted, dropped);
    DroppedWeighNothing(dropped, pins);
  }

  /** Packs when a budget is set, then orders the items by role. */
  method Arrange(items: seq<Item>, cfg: Config, pins: seq<Id>) returns (delivered: seq<Item>, dropped: seq<Item>)
    requires OnceEach(items)
    ensures OnceEach(delivered) && Ranking.Sorted(Before(), delivered)
    ensures forall i :: i in items <==> i in delivered || i in dropped
    ensures forall i :: i in dropped ==> !Must(pins, i)
    ensures cfg.budget.None? ==> dropped == []
    ensures cfg.budget.Some? ==> WithinBudget(delivered, dropped, Effective(cfg.budget.value, cfg.continuation), pins)
  {
    var chosen := items;
    dropped := [];
    if cfg.budget.Some? {
      chosen, dropped := Pack(items, cfg.budget.value, cfg.continuation, pins);
    }
    BeforeOrders();
    Ranking.SortOrders(Before(), chosen);
    delivered := Ranking.Sort(Before(), chosen);
    Parts(items, chosen, dropped, delivered, pins);
  }

  /** The budget bounds what is delivered: at most what must be kept is added to it, or nothing at all
      when every pinned item has a critical role; and nothing that would still fit is dropped. */
  ghost predicate WithinBudget(delivered: seq<Item>, dropped: seq<Item>, effective: int, pins: seq<Id>) {
    && Sum(Tokens, delivered) <= Max(effective, 0) + Sum(MustTokens(pins), delivered)
    && ((forall i :: i in delivered && i.id in pins ==> Critical(i.role)) ==>
          Sum(Tokens, delivered) <= Max(effective, Sum(MustTokens(pins), delivered)))
    && (forall i :: i in dropped ==> Sum(Tokens, delivered) + i.tokens > effective)
  }

  /** Everything retrieved is reachable or dropped; nothing pinned and nothing critical is dropped; the
      envelope says that it is incomplete exactly when history was folded or something was dropped. */
  ghost predicate Honest(e: Envelope, objs: seq<Obj>, dropped: seq<Item>) {
    && (forall o :: o in objs ==> Reachable(e, o.id) || o.id in ItemIds(dropped))
    && (forall id :: id in e.pinned ==> id in ItemIds(e.items))
    && (forall i :: i in dropped ==> !Must(e.pinned, i))
    && (e.incomplete <==> dropped != [] || FoldsHistory(e.groups))
    && ContradictionUnavailable !in e.reasons
  }

  /** What may never be left out: decisions, facts that are believed, open claims, and evidence against something. */
  predicate Indispensable(o: Obj) {
    || o.kind == Decision
    || (o.kind == Fact && o.txTo.None?)
    || (o.kind == Claim && (o.status == Unset || o.status == Open))
    || (o.kind == Evidence && (o.meta.relation == Some(Contradicts) || o.meta.relation == Some(Weakens)))
  }

  /** The item tells its object: its kind, its cost, what it rests on, and its role. */
  ghost predicate Tells(i: Item, o: Obj, cost: Obj -> nat) {
    && i.id == o.id && i.kind == o.kind && i.tokens == cost(o)
    && (forall r :: r in i.refs <==>
          || (o.body.source.Some? && o.body.source.value != "" && r == "source:" + o.body.source.value)
          || exists e :: e in o.body.evidence && r == "evidence:" + e)
    && (i.role == Contradicting <==>
          o.kind == Evidence && (o.meta.relation == Some(Contradicts) || o.meta.relation == Some(Weakens)))
    && (i.role == Deciding <==> o.kind == Decision)
    && (i.role == Current <==>
          || (o.kind == Fact && o.txTo.None?)
          || (o.kind == Claim && (o.status == Unset || o.status == Open)))
    && (i.role == Historic <==>
          || (o.kind == Fact && o.txTo.Some?)
          || (o.kind == Claim && o.status != Unset && o.status != Open))
  }

  /** Delivered in this order of roles, and by id within a role. */
  const ROLES := [Contradicting, Current, Deciding, Support, Historic]

  predicate NotAfter(a: Item, b: Item, j: nat, k: nat) {
    && j <= k < |ROLES| && ROLES[j] == a.role && ROLES[k] == b.role
    && (j == k ==> !Temporal.StringLess(b.id, a.id))
  }

  ghost predicate Ordered(a: Item, b: Item) {
    exists j: nat, k: nat :: NotAfter(a, b, j, k)
  }

  ghost predicate InRoleOrder(items: seq<Item>) {
    forall m, n :: 0 <= m < n < |items| ==> Ordered(items[m], items[n])
  }

  /** Whatever the budget, what may not be left out is delivered, unless it is folded. */
  ghost predicate KeepsIndispensable(e: Envelope, objs: seq<Obj>) {
    forall o :: o in objs && Indispensable(o) && !Folded(e.groups, o.id) ==> o.id in ItemIds(e.items)
  }

  /** Every item, delivered or dropped, tells the object of its id. */
  ghost predicate AllTell(items: seq<Item>, store: Objects, cost: Obj -> nat) {
    forall i :: i in items ==> i.id in store && Tells(i, store[i.id], cost)
  }

  lemma ItemTells(o: Obj, cost: Obj -> nat)
    ensures Tells(ItemOf(cost)(o), o, cost)
    ensures Critical(ItemOf(cost)(o).role) <==> Indispensable(o)
  {
    forall r ensures r in Refs(o) <==>
      || (o.body.source.Some? && o.body.source.value != "" && r == "source:" + o.body.source.value)
      || exists e :: e in o.body.evidence && r == "evidence:" + e
    {
      RefsOfOne(o, r);
    }
  }

  lemma RefsOfOne(o: Obj, r: string)
    ensures r in SourceRefs(Sources([o])) <==>
            o.body.source.Some? && o.body.source.value != "" && r == "source:" + o.body.source.value
  {
    assert Sources([o]) == if o.body.source.Some? && o.body.source.value != "" then {o.body.source.value} else {} by {
      assert o in [o];
    }
    if r in SourceRefs(Sources([o])) {
      var s :| s in Sources([o]) && r == "source:" + s;
    }
  }

  lemma ShownTell(shown: seq<Obj>, items: seq<Item>, cost: Obj -> nat, store: Objects)
    requires forall o :: o in shown ==> o.id in store && store[o.id] == o
    requires forall i :: i in items ==> Shows(shown, cost, i)
    ensures AllTell(items, store, cost)
  {
    forall i | i in items ensures i.id in store && Tells(i, store[i.id], cost) {
      var o :| o in shown && i == ItemOf(cost)(o);
      ItemTells(o, cost);
    }
  }

  lemma IndispensableKept(e: Envelope, objs: seq<Obj>, cost: Obj -> nat, dropped: seq<Item>)
    requires forall o :: o in objs ==>
               Folded(e.groups, o.id) || ItemOf(cost)(o) in e.items || ItemOf(cost)(o) in dropped
    requires forall i :: i in dropped ==> !Critical(i.role)
    ensures KeepsIndispensable(e, objs)
  {
    forall o | o in objs && Indispensable(o) && !Folded(e.groups, o.id) ensures o.id in ItemIds(e.items) {
      ItemTells(o, cost);
      IdIn(e.items, ItemOf(cost)(o));
    }
  }

  lemma RoleAt(r: Role)
    ensures RoleRank(r) < |ROLES| && ROLES[RoleRank(r)] == r
  {
    match r
    case Contradicting =>
    case Current =>
    case Deciding =>
    case Support =>
    case Historic =>
  }

  lemma SortedInRoleOrder(items: seq<Item>)
    requires Ranking.Sorted(Before(), items)
    ensures InRoleOrder(items)
  {
    forall m, n | 0 <= m < n < |items| ensures Ordered(items[m], items[n]) {
      assert !Before()(items[n], items[m]);
      RoleAt(items[m].role);
      RoleAt(items[n].role);
      assert NotAfter(items[m], items[n], RoleRank(items[m].role), RoleRank(items[n].role));
    }
  }

  /** The contradictions are among the pinned ones, or pinning is off. */
  ghost predicate PinsAll(e: Envelope, objs: seq<Obj>, store: Objects, canRead: Obj -> bool) {
    forall o :: Pinned(objs, store, canRead, o) ==> o.id in e.pinned && o.id in ItemIds(e.items)
  }

  /** Every source of a retrieved object is still referred to, unless the object was dropped. */
  ghost predicate KeepsSources(e: Envelope, objs: seq<Obj>, dropped: seq<Item>) {
    forall o :: o in objs && o.body.source.Some? && o.body.source.value != "" ==>
      "source:" + o.body.source.value in e.refs || o.id in ItemIds(dropped)
  }

  function AllRefs(items: seq<Item>, groups: seq<Group>): set<string> {
    (set i, p | i in items && p in i.refs :: p) + (set g, s | g in groups && s in g.sources :: "source:" + s)
  }

  function ReasonsFor(history: bool, dropped: seq<Item>, continuation: bool): set<Reason> {
    (if history then {HistoryCollapsed} else {}) + (if dropped != [] then {TokenLimit} else {})
    + (if dropped != [] && continuation then {ContinuationAvailable} else {})
  }

  method Finalize(items: seq<Item>, pins: seq<Id>, groups: seq<Group>, dropped: seq<Item>, history: bool,
                  continuation: bool)
    returns (e: Envelope)
    requires forall id :: id in pins ==> id in ItemIds(items)
    requires history <==> FoldsHistory(groups)
    ensures e.items == items && e.groups == groups && e.pinned == pins && e.refs == AllRefs(items, groups)
    ensures e.tokens == Sum(Tokens, items)
    ensures e.incomplete <==> dropped != [] || FoldsHistory(groups)
    ensures e.reasons == ReasonsFor(history, dropped, continuation)
  {
    var reasons := if history then {HistoryCollapsed} else {};
    if dropped != [] {
      reasons := reasons + {TokenLimit};
      if continuation {
        reasons := reasons + {ContinuationAvailable};
      }
    }
    var missing, present := [], [];
    for n := 0 to |pins|
      invariant missing == [] && present == pins[..n]
    {
      var pin := pins[n];
      if pin in ItemIds(items) {
        present := present + [pin];
      } else {
        missing := missing + [pin];
      }
    }
    if missing != [] {
      reasons := reasons + {ContradictionUnavailable};
    }
    var incomplete := dropped != [] || missing != [] || HistoryCollapsed in reasons || TokenLimit in reasons;
    e := Envelope(items, present, groups, AllRefs(items, groups), incomplete, reasons, Sum(Tokens, items));
  }

  lemma KeptDistinct(objs: seq<Obj>, cost: Obj -> nat, kept: seq<Obj>, groups: seq<Group>)
    requires DistinctIds(objs) && Conserves(objs, cost, kept, groups)
    ensures DistinctIds(kept)
  {
    forall id ensures multiset(Ids(kept))[id] <= 1 {
      assert multiset(Ids(kept))[id] <= multiset(Ids(objs))[id];
    }
  }

  /** A retrieved object is kept or folded into a group. */
  lemma Accounted(objs: seq<Obj>, cost: Obj -> nat, kept: seq<Obj>, groups: seq<Group>, o: Obj)
    requires DistinctIds(objs) && Conserves(objs, cost, kept, groups) && o in objs
    ensures Folded(groups, o.id) || o in kept
  {
    MemberId(objs, o);
    assert o.id in multiset(Ids(kept)) + multiset(FoldedIds(groups));
    FoldedIn(groups, o.id);
    if !Folded(groups, o.id) {
      var n :| 0 <= n < |kept| && Ids(kept)[n] == o.id;
      assert kept[n] in multiset(objs);
      SameId(objs, o, kept[n]);
    }
  }

  /** A folded object's source is among its group's. */
  lemma FoldedSource(objs: seq<Obj>, mayCollapse: bool, scores: Scores, cost: Obj -> nat, groups: seq<Group>, o: Obj)
    requires DistinctIds(objs) && o in objs && Folded(groups, o.id)
    requires forall g :: g in groups ==> IsGroup(g.kind, mayCollapse, scores, cost, objs, g)
    ensures o.body.source.Some? && o.body.source.value != "" ==>
              exists g :: g in groups && o.body.source.value in g.sources
  {
    var g :| g in groups && o.id in g.collapsed;
    var k :| g in GroupFor(g.kind, mayCollapse, scores, cost, Matching(objs, KeyOf(g.kind), Some(k)));
    var v := FoldedMember(objs, g.kind, mayCollapse, scores, cost, g, k, o.id);
    MatchingIn(objs, KeyOf(g.kind), Some(k));
    SameId(objs, o, v);
  }

  lemma ItemRefs(cost: Obj -> nat, o: Obj)
    requires o.body.source.Some? && o.body.source.value != ""
    ensures "source:" + o.body.source.value in ItemOf(cost)(o).refs
  {
    assert o in [o] && o.body.source.value in Sources([o]);
  }

  method Build(objs: seq<Obj>, scores: Scores, cost: Obj -> nat, store: Objects, canRead: Obj -> bool,
               mayCollapse: bool,
               cfg: Config)
    returns (e: Envelope, dropped: seq<Item>)
    requires FromStore(objs, store)
    ensures Honest(e, objs, dropped)
    ensures cfg.pin ==> PinsAll(e, objs, store, canRead)
    ensures OnceEach(e.items) && Ranking.Sorted(Before(), e.items)
    ensures e.tokens == Sum(Tokens, e.items)
    ensures cfg.budget.None? ==> dropped == []
    ensures cfg.budget.Some? ==> WithinBudget(e.items, dropped, Effective(cfg.budget.value, cfg.continuation), e.pinned)
    ensures forall g :: g in e.groups <==> cfg.collapse && IsGroup(g.kind, mayCollapse, scores, cost, objs, g)
    ensures KeepsSources(e, objs, dropped) && DeliversOnly(e.items, objs, cost, store, canRead)
    ensures forall id :: Folded(e.groups, id) ==> (id in ItemIds(e.items) <==> id in e.pinned)
    ensures KeepsIndispensable(e, objs) && AllTell(e.items, store, cost) && AllTell(dropped, store, cost)
    ensures InRoleOrder(e.items)
  {
    var kept, groups, history := Reduced(objs, scores, cost, mayCollapse, cfg.collapse);
    KeptDistinct(objs, cost, kept, groups);
    var contra := [];
    if cfg.pin {
      contra := Contradictions(objs, store, canRead);
    }
    var shown := WithPinned(kept, contra);
    ItemsOf(shown, cost);
    var delivered;
    delivered, dropped := Arrange(Map(ItemOf(cost), shown), cfg, Ids(contra));
    PinsDelivered(contra, Map(ItemOf(cost), shown), delivered, dropped);
    e := Finalize(delivered, Ids(contra), groups, dropped, history, cfg.continuation);
    AllAccounted(objs, cost, kept, groups, shown, e, dropped);
    IsHonest(e, objs, dropped, history, cfg.continuation);
    SourcesKept(objs, mayCollapse, scores, cost, e, dropped);
    OnlyThese(objs, cost, store, canRead, kept, groups, contra, shown, delivered);
    FoldedAreNotShown(objs, cost, kept, groups, contra, shown, delivered);
    IndispensableKept(e, objs, cost, dropped);
    ShownThere(objs, cost, store, canRead, kept, groups, contra, shown);
    ShownTell(shown, delivered, cost, store);
    ShownTell(shown, dropped, cost, store);
    SortedInRoleOrder(delivered);
  }

  lemma ShownThere(objs: seq<Obj>, cost: Obj -> nat, store: Objects, canRead: Obj -> bool, kept: seq<Obj>,
                   groups: seq<Group>, contra: seq<Obj>, shown: seq<Obj>)
    requires FromStore(objs, store) && Conserves(objs, cost, kept, groups)
    requires forall o :: o in shown ==> o in kept || o in contra
    requires forall o :: o in contra ==> Pinned(objs, store, canRead, o)
    ensures forall o :: o in shown ==> o.id in store && store[o.id] == o
  {
    forall o | o in shown ensures o.id in store && store[o.id] == o {
      if o in kept {
        assert o in multiset(kept);
        assert o in objs;
      }
    }
  }

  lemma IsHonest(e: Envelope, objs: seq<Obj>, dropped: seq<Item>, history: bool, continuation: bool)
    requires forall o :: o in objs ==> Reachable(e, o.id) || o.id in ItemIds(dropped)
    requires forall id :: id in e.pinned ==> id in ItemIds(e.items)
    requires forall i :: i in dropped ==> !Must(e.pinned, i)
    requires e.incomplete <==> dropped != [] || FoldsHistory(e.groups)
    requires e.reasons == ReasonsFor(history, dropped, continuation)
    ensures Honest(e, objs, dropped)
  {
  }

  lemma AllAccounted(objs: seq<Obj>, cost: Obj -> nat, kept: seq<Obj>, groups: seq<Group>, shown: seq<Obj>, e: Envelope,
                     dropped: seq<Item>)
    requires DistinctIds(objs) && Conserves(objs, cost, kept, groups) && kept <= shown && e.groups == groups
    requires forall o :: o in shown ==> ItemOf(cost)(o) in e.items || ItemOf(cost)(o) in dropped
    ensures forall o :: o in objs ==> Folded(groups, o.id) || ItemOf(cost)(o) in e.items || ItemOf(cost)(o) in dropped
    ensures forall o :: o in objs ==> Reachable(e, o.id) || o.id in ItemIds(dropped)
  {
    forall o | o in objs
      ensures Folded(groups, o.id) || ItemOf(cost)(o) in e.items || ItemOf(cost)(o) in dropped
      ensures Reachable(e, o.id) || o.id in ItemIds(dropped)
    {
      Accounted(objs, cost, kept, groups, o);
      IdIn(e.items, ItemOf(cost)(o));
      IdIn(dropped, ItemOf(cost)(o));
    }
  }

  /** What is delivered is retrieved or pinned. */
  ghost predicate DeliversOnly(items: seq<Item>, objs: seq<Obj>, cost: Obj -> nat, store: Objects,
                               canRead: Obj -> bool) {
    forall i :: i in items ==> Permitted(objs, cost, store, canRead, i)
  }

  ghost predicate Permitted(objs: seq<Obj>, cost: Obj -> nat, store: Objects, canRead: Obj -> bool, i: Item) {
    exists o :: (o in objs || Pinned(objs, store, canRead, o)) && i == ItemOf(cost)(o)
  }

  lemma OnlyThese(objs: seq<Obj>, cost: Obj -> nat, store: Objects, canRead: Obj -> bool, kept: seq<Obj>,
                  groups: seq<Group>,
                  contra: seq<Obj>, shown: seq<Obj>, delivered: seq<Item>)
    requires Conserves(objs, cost, kept, groups)
    requires forall o :: o in shown ==> o in kept || o in contra
    requires forall o :: o in contra ==> Pinned(objs, store, canRead, o)
    requires forall i :: i in delivered ==> Shows(shown, cost, i)
    ensures DeliversOnly(delivered, objs, cost, store, canRead)
  {
    forall i | i in delivered ensures Permitted(objs, cost, store, canRead, i) {
      var o :| o in shown && i == ItemOf(cost)(o);
      assert o in kept ==> o in multiset(kept);
    }
  }

  /** A folded object is not kept, so that it is delivered only when it is pinned. */
  lemma FoldedAreNotShown(objs: seq<Obj>, cost: Obj -> nat, kept: seq<Obj>, groups: seq<Group>, contra: seq<Obj>,
                          shown: seq<Obj>, delivered: seq<Item>)
    requires DistinctIds(objs) && Conserves(objs, cost, kept, groups)
    requires forall o :: o in shown ==> o in kept || o in contra
    requires forall i :: i in delivered ==> Shows(shown, cost, i)
    ensures forall id :: Folded(groups, id) && id in ItemIds(delivered) ==> id in Ids(contra)
  {
    forall id | Folded(groups, id) && id in ItemIds(delivered) ensures id in Ids(contra) {
      var i := Carrier(delivered, id);
      var o :| o in shown && i == ItemOf(cost)(o);
      FoldedIsNotKept(objs, cost, kept, groups, id);
      MemberId(kept, o);
      MemberId(contra, o);
    }
  }

  lemma FoldedIsNotKept(objs: seq<Obj>, cost: Obj -> nat, kept: seq<Obj>, groups: seq<Group>, id: Id)
    requires DistinctIds(objs) && Conserves(objs, cost, kept, groups) && Folded(groups, id)
    ensures id !in Ids(kept)
  {
    FoldedIn(groups, id);
    assert multiset(Ids(kept))[id] + multiset(FoldedIds(groups))[id] == multiset(Ids(objs))[id] <= 1;
    assert multiset(FoldedIds(groups))[id] >= 1;
  }

  /** It does happen: of two copies of one piece of evidence, the folded one is pinned when a retrieved claim
      links it as contradicting, although its own metadata names no relation. */
  lemma PinnedCopyFolded(claim: Obj, x: Obj, y: Obj, cost: Obj -> nat, canRead: Obj -> bool)
    requires claim.kind == Claim && Link(y.id, Contradicts) in claim.meta.evidenceLinks && canRead(y)
    requires x.kind == Evidence && y.kind == Evidence && x.meta.relation.None? && y.meta.relation.None?
    requires x.body.contentHash == y.body.contentHash && y.body.contentHash.Some? && y.body.contentHash.value != ""
    requires x.id != y.id && claim.id != x.id && claim.id != y.id
    ensures var objs, store := [claim, x, y], map[claim.id := claim, x.id := x, y.id := y];
            && Pinned(objs, store, canRead, y)
            && exists g :: IsGroup(Duplicate, false, map[], cost, objs, g) && g.canonical == x.id &&
                           g.collapsed == [y.id]
  {
    var objs := [claim, x, y];
    var k := DuplicateKey(y).value;
    assert objs[..2] == [claim, x] && [claim, x][..1] == [claim] && [claim][..0] == [];
    assert Matching([claim], DuplicateKey, Some(k)) == [];
    assert Matching([claim, x], DuplicateKey, Some(k)) == [x];
    assert Matching(objs, DuplicateKey, Some(k)) == [x, y];
    FoldsCopy(x, y, cost);
    var groups := GroupFor(Duplicate, false, map[], cost, [x, y]);
    assert groups[0] in groups;
    assert claim in objs && Attached(objs, y.id) by {
      var l := Link(y.id, Contradicts);
      assert l in claim.meta.evidenceLinks && l.evidence == y.id && l.relation == Contradicts;
    }
  }

  lemma FoldsCopy(x: Obj, y: Obj, cost: Obj -> nat)
    requires x.id != y.id
    ensures var groups := GroupFor(Duplicate, false, map[], cost, [x, y]);
            |groups| == 1 && groups[0].canonical == x.id && groups[0].collapsed == [y.id]
  {
    var objs := [x, y];
    assert objs[..1] == [x] && [x][..0] == [];
    assert Best(map[], [x]) == x && Best(map[], objs) == x;
    assert Others([x], x.id) == [];
    assert Others(objs, x.id) == [y];
    assert Ids([y]) == [y.id];
  }

  method Reduced(objs: seq<Obj>, scores: Scores, cost: Obj -> nat, mayCollapse: bool, collapse: bool)
    returns (kept: seq<Obj>, groups: seq<Group>, history: bool)
    requires DistinctIds(objs)
    ensures Conserves(objs, cost, kept, groups)
    ensures forall g :: g in groups <==> collapse && IsGroup(g.kind, mayCollapse, scores, cost, objs, g)
    ensures history <==> FoldsHistory(groups)
  {
    if collapse {
      kept, groups, history := Collapse.Collapse(objs, scores, cost, mayCollapse);
    } else {
      kept, groups, history := objs, [], false;
    }
  }

  lemma PinsDelivered(contra: seq<Obj>, items: seq<Item>, delivered: seq<Item>, dropped: seq<Item>)
    requires forall c :: c in contra ==> c.id in ItemIds(items)
    requires forall i :: i in items ==> i in delivered || i in dropped
    requires forall i :: i in dropped ==> !Must(Ids(contra), i)
    ensures forall id :: id in Ids(contra) ==> id in ItemIds(delivered)
    ensures forall c :: c in contra ==> c.id in Ids(contra)
  {
    forall c | c in contra ensures c.id in Ids(contra) {
      MemberId(contra, c);
    }
    forall id | id in Ids(contra) ensures id in ItemIds(delivered) {
      var n :| 0 <= n < |contra| && Ids(contra)[n] == id;
      assert contra[n] in contra;
      var i := Carrier(items, id);
      IdIn(delivered, i);
    }
  }

  lemma SourcesKept(objs: seq<Obj>, mayCollapse: bool, scores: Scores, cost: Obj -> nat, e: Envelope,
                    dropped: seq<Item>)
    requires DistinctIds(objs) && e.refs == AllRefs(e.items, e.groups)
    requires forall g :: g in e.groups ==> IsGroup(g.kind, mayCollapse, scores, cost, objs, g)
    requires forall o :: o in objs ==>
               Folded(e.groups, o.id) || ItemOf(cost)(o) in e.items || ItemOf(cost)(o) in dropped
    ensures KeepsSources(e, objs, dropped)
  {
    forall o | o in objs && o.body.source.Some? && o.body.source.value != ""
      ensures "source:" + o.body.source.value in e.refs || o.id in ItemIds(dropped)
    {
      ItemRefs(cost, o);
      IdIn(dropped, ItemOf(cost)(o));
      if Folded(e.groups, o.id) {
        FoldedSource(objs, mayCollapse, scores, cost, e.groups, o);
      }
    }
  }
}
