/** The context envelope: what is delivered, what is folded, what is dropped, and what is admitted. */
module Context {
  import opened Model
  import opened Collapse
  import opened Tally
  import Ranking
  import Temporal

  datatype Role = Contradicting | Current | Deciding | Support | Historic

  datatype Item = Item(id: Id, kind: Kind, role: Role, tokens: nat, refs: set<string>)

  function RoleRank(r: Role): nat {
    match r
    case Contradicting => 0
    case Current => 1
    case Deciding => 2
    case Support => 3
    case Historic => 4
  }

  predicate Critical(r: Role) {
    r == Contradicting || r == Current || r == Deciding
  }

  function RoleOf(o: Obj): Role {
    if IsContradiction(o) then Contradicting
    else if o.kind == Decision then Deciding
    else if !IsCurrent(o) then Historic
    else if o.kind == Fact || o.kind == Claim then Current
    else Support
  }

  function SourceRefs(sources: set<Id>): set<string> {
    set s | s in sources :: "source:" + s
  }

  function Refs(o: Obj): set<string> {
    SourceRefs(Sources([o])) + set e | e in o.body.evidence :: "evidence:" + e
  }

  function ItemOf(cost: Obj -> nat): Obj -> Item {
    (o: Obj) => Item(o.id, o.kind, RoleOf(o), cost(o), Refs(o))
  }

  function Tokens(i: Item): nat {
    i.tokens
  }

  function ItemId(i: Item): Id {
    i.id
  }

  function ItemIds(items: seq<Item>): seq<Id> {
    Map(ItemId, items)
  }

  /** By role, then by id. */
  function Before(): Ranking.Less<Item> {
    (i: Item, j: Item) =>
      RoleRank(i.role) < RoleRank(j.role) || (i.role == j.role && Temporal.StringLess(i.id, j.id))
  }

  lemma BeforeOrders()
    ensures Ranking.Orders(Before())
  {
    forall i, j | Before()(i, j) ensures !Before()(j, i) {
      Temporal.StringTotal(i.id, j.id);
    }
    forall i, j, k | !Before()(j, i) && !Before()(k, j) ensures !Before()(k, i) {
      Temporal.StringTotal(i.id, j.id);
      Temporal.StringTotal(j.id, k.id);
      Temporal.StringTotal(i.id, k.id);
      if i.role == j.role == k.role && Temporal.StringLess(k.id, i.id) {
        if Temporal.StringLess(i.id, j.id) {
          Temporal.StringTransitive(k.id, i.id, j.id);
        }
      }
    }
  }

  /******* Packing into a budget *******/

  /** Half the budget when a continuation is offered, rounded toward zero. */
  function Effective(budget: int, continuation: bool): int {
    if !continuation then budget else if budget >= 0 then budget / 2 else -((-budget) / 2)
  }

  /** With a continuation half of the budget is used, cut to a whole number; without one, all of it. */
  lemma HalfOfBudget(budget: int)
    ensures Effective(budget, false) == budget
    ensures budget >= 0 ==> 2 * Effective(budget, true) <= budget < 2 * Effective(budget, true) + 2
    ensures budget < 0 ==> 2 * Effective(budget, true) - 2 < budget <= 2 * Effective(budget, true)
  {
  }

  predicate Must(pins: seq<Id>, i: Item) {
    Critical(i.role) || i.id in pins
  }

  function MustTokens(pins: seq<Id>): Item -> nat {
    (i: Item) => if Must(pins, i) then i.tokens else 0
  }

  function Max(a: int, b: int): int {
    if a >= b then a else b
  }

  /** The items that must be kept come before all others. */
  ghost predicate MustFirst(ranked: seq<Item>, pins: seq<Id>) {
    forall n :: 0 <= n < |ranked| && Must(pins, ranked[n]) ==> AllMust(ranked[..n], pins)
  }

  predicate AllMust(items: seq<Item>, pins: seq<Id>) {
    forall i :: i in items ==> Must(pins, i)
  }

  ghost predicate Split(items: seq<Item>, chosen: seq<Item>, dropped: seq<Item>) {
    multiset(chosen) + multiset(dropped) == multiset(items)
  }

  lemma SplitMore(ranked: seq<Item>, n: nat, chosen: seq<Item>, dropped: seq<Item>)
    requires n < |ranked| && Split(ranked[..n], chosen, dropped)
    ensures ranked[..n + 1] == ranked[..n] + [ranked[n]]
    ensures Split(ranked[..n + 1], chosen + [ranked[n]], dropped) &&
            Split(ranked[..n + 1], chosen, dropped + [ranked[n]])
  {
    assert ranked[..n + 1] == ranked[..n] + [ranked[n]];
  }

  /** Takes, in order, what must be kept and what still fits. */
  method Greedy(ranked: seq<Item>, effective: int, pins: seq<Id>) returns (chosen: seq<Item>, dropped: seq<Item>)
    ensures multiset(chosen) + multiset(dropped) == multiset(ranked)
    ensures forall i :: i in dropped ==> !Must(pins, i) && Sum(Tokens, chosen) + i.tokens > effective
    ensures Sum(Tokens, chosen) <= Max(effective, 0) + Sum(MustTokens(pins), ranked)
    ensures MustFirst(ranked, pins) ==> Sum(Tokens, chosen) <= Max(effective, Sum(MustTokens(pins), ranked))
  {
    chosen, dropped := [], [];
    var used: nat := 0;
    for n := 0 to |ranked|
      invariant Taking(ranked, n, effective, pins, chosen, dropped, used)
    {
      var i := ranked[n];
      TakeStep(ranked, n, effective, pins, chosen, dropped, used);
      if used + i.tokens <= effective || Must(pins, i) {
        chosen := chosen + [i];
        used := used + i.tokens;
      } else {
        dropped := dropped + [i];
      }
    }
    assert ranked[..|ranked|] == ranked;
  }

  /** The state after the first n items. */
  ghost predicate Taking(ranked: seq<Item>, n: nat, effective: int, pins: seq<Id>, chosen: seq<Item>,
                         dropped: seq<Item>,
                         used: nat)
  {
    && n <= |ranked|
    && Split(ranked[..n], chosen, dropped)
    && used == Sum(Tokens, chosen)
    && Refuses(pins, dropped, effective - used)
    && used <= Max(effective, 0) + Sum(MustTokens(pins), ranked[..n])
    && (MustFirst(ranked, pins) ==> used <= Max(effective, Sum(MustTokens(pins), ranked[..n])))
    && (AllMust(ranked[..n], pins) ==> used == Sum(MustTokens(pins), ranked[..n]))
  }

  /** No dropped item must be kept, and none fits into what is left. */
  ghost predicate Refuses(pins: seq<Id>, dropped: seq<Item>, left: int) {
    forall i :: i in dropped ==> !Must(pins, i) && i.tokens > left
  }

  lemma TakeStep(ranked: seq<Item>, n: nat, effective: int, pins: seq<Id>, chosen: seq<Item>, dropped: seq<Item>,
                 used: nat)
    requires Taking(ranked, n, effective, pins, chosen, dropped, used) && n < |ranked|
    ensures var i := ranked[n];
            if used + i.tokens <= effective || Must(pins, i)
            then Taking(ranked, n + 1, effective, pins, chosen + [i], dropped, used + i.tokens)
            else Taking(ranked, n + 1, effective, pins, chosen, dropped + [i], used)
  {
    var i := ranked[n];
    SplitMore(ranked, n, chosen, dropped);
    SumStep(MustTokens(pins), ranked, n);
    SumPush(Tokens, chosen, i);
    assert AllMust(ranked[..n + 1], pins) ==> AllMust(ranked[..n], pins) && Must(pins, i);
    assert MustFirst(ranked, pins) && Must(pins, i) ==> AllMust(ranked[..n], pins);
  }

  /** In role order, takes what must be kept and what still fits. */
  method Pack(items: seq<Item>, budget: int, continuation: bool, pins: seq<Id>)
    returns (chosen: seq<Item>, dropped: seq<Item>)
    ensures multiset(chosen) + multiset(dropped) == multiset(items)
    ensures forall i :: i in dropped ==>
              !Must(pins, i) && Sum(Tokens, chosen) + i.tokens > Effective(budget, continuation)
    ensures Sum(Tokens, chosen) <= Max(Effective(budget, continuation), 0) + Sum(MustTokens(pins), items)
    ensures (forall i :: i in items && i.id in pins ==> Critical(i.role)) ==>
              Sum(Tokens, chosen) <= Max(Effective(budget, continuation), Sum(MustTokens(pins), items))
  {
    BeforeOrders();
    Ranking.SortOrders(Before(), items);
    var ranked := Ranking.Sort(Before(), items);
    SumRearranged(MustTokens(pins), ranked, items);
    if forall i :: i in items && i.id in pins ==> Critical(i.role) {
      forall n | 0 <= n < |ranked| && Must(pins, ranked[n]) ensures AllMust(ranked[..n], pins) {
        CriticalFirst(ranked, items, pins, n);
      }
    }
    chosen, dropped := Greedy(ranked, Effective(budget, continuation), pins);
  }

  /** When only critical items are pinned, the items that must be kept come first in role order. */
  lemma CriticalFirst(ranked: seq<Item>, items: seq<Item>, pins: seq<Id>, n: nat)
    requires Ranking.Sorted(Before(), ranked) && multiset(ranked) == multiset(items) && n < |ranked|
    requires forall i :: i in items && i.id in pins ==> Critical(i.role)
    requires Must(pins, ranked[n])
    ensures forall i :: i in ranked[..n] ==> Must(pins, i)
  {
    assert ranked[n] in multiset(ranked);
    forall i | i in ranked[..n] ensures Must(pins, i) {
      var k :| 0 <= k < n && ranked[k] == i;
      assert !Before()(ranked[n], ranked[k]);
    }
  }

  /******* Contradictions to pin *******/

  predicate Attached(objs: seq<Obj>, id: Id) {
    exists o, l :: o in objs && o.kind == Claim && l in o.meta.evidenceLinks && l.evidence == id &&
                   (l.relation == Contradicts || l.relation == Weakens)
  }

  /** Which objects are pinned: retrieved contradictions, and readable evidence that some retrieved claim
      links as contradicting or weakening. */
  ghost predicate Pinned(objs: seq<Obj>, store: Objects, canRead: Obj -> bool, o: Obj) {
    (o in objs && IsContradiction(o)) || (Attached(objs, o.id) && o.id in store && store[o.id] == o && canRead(o))
  }

  ghost predicate FromStore(objs: seq<Obj>, store: Objects) {
    && DistinctIds(objs)
    && (forall o :: o in objs ==> o.id in store && store[o.id] == o)
    && (forall id :: id in store ==> store[id].id == id)
  }

  predicate AttachedBy(o: Obj, links: seq<Link>, id: Id) {
    o.kind == Claim &&
    exists l :: l in links && l.evidence == id && (l.relation == Contradicts || l.relation == Weakens)
  }

  ghost predicate IdsOnce(objs: seq<Obj>) {
    forall i, j :: 0 <= i < j < |objs| ==> objs[i].id != objs[j].id
  }

  method Contradictions(objs: seq<Obj>, store: Objects, canRead: Obj -> bool) returns (found: seq<Obj>)
    requires FromStore(objs, store)
    ensures IdsOnce(found)
    ensures forall o :: o in found <==> Pinned(objs, store, canRead, o)
  {
    found := Retrieved(objs, store);
    for n := 0 to |objs|
      invariant IdsOnce(found) && forall o :: o in found ==> o.id in store && store[o.id] == o
      invariant forall o :: o in found <==>
                  (o in objs && IsContradiction(o)) ||
                  (Attached(objs[..n], o.id) && o.id in store && store[o.id] == o && canRead(o))
    {
      assert objs[..n + 1] == objs[..n] + [objs[n]];
      AttachedStep(objs[..n], objs[n]);
      if objs[n].kind == Claim {
        found := AttachedTo(objs[n], store, canRead, found);
      }
    }
    assert objs[..|objs|] == objs;
  }

  lemma AttachedStep(objs: seq<Obj>, o: Obj)
    ensures forall id :: Attached(objs + [o], id) <==> Attached(objs, id) || AttachedBy(o, o.meta.evidenceLinks, id)
  {
    forall id | AttachedBy(o, o.meta.evidenceLinks, id) ensures Attached(objs + [o], id) {
      var l :| l in o.meta.evidenceLinks && l.evidence == id && (l.relation == Contradicts || l.relation == Weakens);
      assert o in objs + [o];
    }
    forall id | Attached(objs, id) ensures Attached(objs + [o], id) {
      var x, l :| x in objs && x.kind == Claim && l in x.meta.evidenceLinks && l.evidence == id &&
                  (l.relation == Contradicts || l.relation == Weakens);
      assert x in objs + [o];
    }
  }

  method Retrieved(objs: seq<Obj>, store: Objects) returns (found: seq<Obj>)
    requires FromStore(objs, store)
    ensures IdsOnce(found)
    ensures forall o :: o in found <==> o in objs && IsContradiction(o)
  {
    found := [];
    for n := 0 to |objs|
      invariant IdsOnce(found)
      invariant forall o :: o in found <==> o in objs[..n] && IsContradiction(o)
    {
      assert objs[..n + 1] == objs[..n] + [objs[n]];
      if IsContradiction(objs[n]) && objs[n] !in found {
        assert forall o :: o in found ==> o.id != objs[n].id;
        found := found + [objs[n]];
      }
    }
    assert objs[..|objs|] == objs;
  }

  method AttachedTo(claim: Obj, store: Objects, canRead: Obj -> bool, found0: seq<Obj>) returns (found: seq<Obj>)
    requires claim.kind == Claim && IdsOnce(found0)
    requires (forall o :: o in found0 ==> o.id in store && store[o.id] == o) &&
             (forall id :: id in store ==> store[id].id == id)
    ensures IdsOnce(found)
    ensures forall o :: o in found <==>
              || o in found0
              || (AttachedBy(claim, claim.meta.evidenceLinks, o.id) && o.id in store && store[o.id] == o && canRead(o))
  {
    found := found0;
    var links := claim.meta.evidenceLinks;
    for n := 0 to |links|
      invariant IdsOnce(found) && forall o :: o in found ==> o.id in store && store[o.id] == o
      invariant forall o :: o in found <==>
                  || o in found0
                  || (AttachedBy(claim, links[..n], o.id) && o.id in store && store[o.id] == o && canRead(o))
    {
      var l := links[n];
      assert links[..n + 1] == links[..n] + [l];
      if l.relation != Contradicts && l.relation != Weakens {
        continue;
      }
      if exists o :: o in found && o.id == l.evidence {
        continue;
      }
      if l.evidence in store && canRead(store[l.evidence]) {
        found := found + [store[l.evidence]];
      }
    }
    assert links[..|links|] == links;
  }
}
