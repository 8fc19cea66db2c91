/** Safe redundancy: superseded versions and true duplicates are folded behind one object. */
module Collapse {
  import opened Model
  import opened Selection
  import opened Tally

  type Key = Obj -> Option<string>
  type Scores = map<Id, real>

  datatype GroupKind = History | Duplicate

  /** One object delivered; the others folded behind it, with every source of the group. */
  datatype Group = Group(kind: GroupKind, canonical: Id, collapsed: seq<Id>, sources: set<Id>, saved: nat)

  predicate IsContradiction(o: Obj) {
    o.kind == Evidence && (o.meta.relation == Some(Contradicts) || o.meta.relation == Some(Weakens))
  }

  predicate IsCurrent(o: Obj) {
    match o.kind
    case Fact => o.txTo.None?
    case Claim => o.status == Unset || o.status == Open
    case _ => true
  }

  function Written(s: Option<string>): string {
    if s.Some? then s.value else "None"
  }

  /** Versions of one statement share a key, which is written as one string. */
  function StatementKey(o: Obj): Option<string> {
    if o.kind == Fact then Some("fact:" + Written(o.body.subject) + "|" + Written(o.body.pred))
    else if o.kind == Claim then Some("claim:" + Written(o.body.subject) + "|" + Written(o.body.pred))
    else None
  }

  /** Pieces of evidence with the same content share a key; contradictions have none. */
  function DuplicateKey(o: Obj): Option<string> {
    if o.kind != Evidence || IsContradiction(o) || o.body.contentHash.None? || o.body.contentHash.value == "" then None
    else Some("hash:" + o.body.contentHash.value)
  }

  function KeyOf(kind: GroupKind): Key {
    if kind == History then StatementKey else DuplicateKey
  }

  function IdOf(o: Obj): Id {
    o.id
  }

  function Ids(objs: seq<Obj>): seq<Id> {
    Map(IdOf, objs)
  }

  /** No id occurs twice. */
  ghost predicate DistinctIds(objs: seq<Obj>) {
    forall id :: multiset(Ids(objs))[id] <= 1
  }

  /******* Buckets *******/

  /** In order, the objects with a given key, or without one. */
  function Matching(objs: seq<Obj>, key: Key, k: Option<string>): seq<Obj>
    decreases |objs|
  {
    if objs == [] then []
    else
      var front, o := Matching(objs[..|objs| - 1], key, k), objs[|objs| - 1];
      if key(o) == k then front + [o] else front
  }

  lemma {:induction false} MatchingIn(objs: seq<Obj>, key: Key, k: Option<string>)
    ensures forall o :: o in Matching(objs, key, k) <==> o in objs && key(o) == k
    decreases |objs|
  {
    if objs != [] {
      var front, o := objs[..|objs| - 1], objs[|objs| - 1];
      assert objs == front + [o];
      MatchingIn(front, key, k);
    }
  }

  lemma {:induction false} MatchingIds(objs: seq<Obj>, key: Key, k: Option<string>)
    ensures multiset(Ids(Matching(objs, key, k))) <= multiset(Ids(objs))
    decreases |objs|
  {
    if objs != [] {
      var front, o := objs[..|objs| - 1], objs[|objs| - 1];
      MatchingIds(front, key, k);
      assert Ids(objs) == Ids(front) + [o.id];
      assert Ids(Matching(front, key, k) + [o]) == Ids(Matching(front, key, k)) + [o.id];
    }
  }

  lemma {:induction false} MatchingConcat(a: seq<Obj>, b: seq<Obj>, key: Key, k: Option<string>)
    ensures Matching(a + b, key, k) == Matching(a, key, k) + Matching(b, key, k)
    decreases |b|
  {
    if b == [] {
      assert a + b == a;
    } else {
      assert (a + b)[..|a + b| - 1] == a + b[..|b| - 1];
      MatchingConcat(a, b[..|b| - 1], key, k);
    }
  }

  ghost predicate NoRepeat(keys: seq<string>) {
    forall i, j :: 0 <= i < j < |keys| ==> keys[i] != keys[j]
  }

  /** Groups objects by key, keys in the order of their first occurrence. */
  method Bucket(objs: seq<Obj>, key: Key) returns (keys: seq<string>, buckets: map<string, seq<Obj>>, rest: seq<Obj>)
    ensures NoRepeat(keys) && (forall k :: k in keys <==> k in buckets)
    ensures forall k :: k in keys ==> buckets[k] == Matching(objs, key, Some(k)) && buckets[k] != []
    ensures forall o :: o in objs && key(o).Some? ==> key(o).value in keys
    ensures rest == Matching(objs, key, None)
  {
    keys, buckets, rest := [], map[], [];
    for i := 0 to |objs|
      invariant NoRepeat(keys) && (forall k :: k in keys <==> k in buckets)
      invariant forall k :: k in keys ==> buckets[k] == Matching(objs[..i], key, Some(k)) && buckets[k] != []
      invariant forall o :: o in objs[..i] && key(o).Some? ==> key(o).value in keys
      invariant rest == Matching(objs[..i], key, None)
    {
      var o := objs[i];
      assert objs[..i + 1] == objs[..i] + [o] && objs[..i + 1][..i] == objs[..i];
      if key(o).Some? {
        var k := key(o).value;
        if k !in buckets {
          NoneMatching(objs[..i], key, k);
          keys := keys + [k];
          buckets := buckets[k := []];
        }
        buckets := buckets[k := buckets[k] + [o]];
      } else {
        rest := rest + [o];
      }
    }
    assert objs[..|objs|] == objs;
  }

  lemma {:induction false} NoneMatching(objs: seq<Obj>, key: Key, k: string)
    requires forall o :: o in objs ==> key(o) != Some(k)
    ensures Matching(objs, key, Some(k)) == []
    decreases |objs|
  {
    if objs != [] {
      NoneMatching(objs[..|objs| - 1], key, k);
    }
  }

  /** All objects whose key is among the given ones. */
  function Spread(objs: seq<Obj>, key: Key, keys: seq<string>): multiset<Obj>
    decreases |keys|
  {
    if keys == [] then multiset{}
    else Spread(objs, key, keys[..|keys| - 1]) + multiset(Matching(objs, key, Some(keys[|keys| - 1])))
  }

  lemma {:induction false} SpreadStep(objs: seq<Obj>, o: Obj, key: Key, keys: seq<string>)
    requires NoRepeat(keys)
    ensures Spread(objs + [o], key, keys) ==
            Spread(objs, key, keys) + (if key(o).Some? && key(o).value in keys then multiset{o} else multiset{})
    decreases |keys|
  {
    if keys != [] {
      var front, k := keys[..|keys| - 1], keys[|keys| - 1];
      assert keys == front + [k];
      SpreadStep(objs, o, key, front);
      assert (objs + [o])[..|objs|] == objs;
    }
  }

  /** The buckets and the rest are all the objects. */
  lemma {:induction false} BucketsPartition(objs: seq<Obj>, key: Key, keys: seq<string>)
    requires NoRepeat(keys) && forall o :: o in objs && key(o).Some? ==> key(o).value in keys
    ensures Spread(objs, key, keys) + multiset(Matching(objs, key, None)) == multiset(objs)
    decreases |objs|
  {
    if objs == [] {
      SpreadOfNone(key, keys);
    } else {
      var front, o := objs[..|objs| - 1], objs[|objs| - 1];
      assert objs == front + [o];
      BucketsPartition(front, key, keys);
      SpreadStep(front, o, key, keys);
    }
  }

  lemma {:induction false} SpreadOfNone(key: Key, keys: seq<string>)
    ensures Spread([], key, keys) == multiset{}
    decreases |keys|
  {
    if keys != [] {
      SpreadOfNone(key, keys[..|keys| - 1]);
    }
  }

  lemma {:induction false} SpreadIsKeyed(objs: seq<Obj>, key: Key, keys: seq<string>)
    ensures forall o :: o in Spread(objs, key, keys) ==> key(o).Some?
    decreases |keys|
  {
    if keys != [] {
      SpreadIsKeyed(objs, key, keys[..|keys| - 1]);
      MatchingIn(objs, key, Some(keys[|keys| - 1]));
    }
  }

  /******* Groups *******/

  function Score(scores: Scores, o: Obj): real {
    if o.id in scores then scores[o.id] else 0.0
  }

  /** The first of the best scored. */
  function Best(scores: Scores, versions: seq<Obj>): (b: Obj)
    requires versions != []
    ensures b in versions && forall v :: v in versions ==> Score(scores, v) <= Score(scores, b)
    decreases |versions|
  {
    var last := versions[|versions| - 1];
    if |versions| == 1 then last
    else
      var b := Best(scores, versions[..|versions| - 1]);
      assert versions == versions[..|versions| - 1] + [last];
      if Score(scores, last) > Score(scores, b) then last else b
  }

  function FirstCurrent(versions: seq<Obj>): (c: Option<Obj>)
    ensures c.Some? <==> exists v :: v in versions && IsCurrent(v)
    ensures c.Some? ==> c.value in versions && IsCurrent(c.value)
  {
    if versions == [] then None
    else if IsCurrent(versions[0]) then Some(versions[0])
    else
      assert versions == [versions[0]] + versions[1..];
      FirstCurrent(versions[1..])
  }

  /** The object a group delivers: its first current version, or else its best scored one. */
  function Canonical(kind: GroupKind, scores: Scores, versions: seq<Obj>): (c: Obj)
    requires versions != []
    ensures c in versions
    ensures kind == History && (exists v :: v in versions && IsCurrent(v)) ==> IsCurrent(c)
  {
    if kind == History && FirstCurrent(versions).Some? then FirstCurrent(versions).value else Best(scores, versions)
  }

  function Others(versions: seq<Obj>, id: Id): seq<Obj>
    decreases |versions|
  {
    if versions == [] then []
    else
      var front, v := Others(versions[..|versions| - 1], id), versions[|versions| - 1];
      if v.id == id then front else front + [v]
  }

  lemma {:induction false} OthersKeep(versions: seq<Obj>, id: Id)
    requires id !in Ids(versions)
    ensures Others(versions, id) == versions
    decreases |versions|
  {
    if versions != [] {
      var front, v := versions[..|versions| - 1], versions[|versions| - 1];
      assert versions == front + [v];
      assert Ids(versions) == Ids(front) + [v.id];
      OthersKeep(front, id);
    }
  }

  lemma MemberId(objs: seq<Obj>, o: Obj)
    ensures o in objs ==> o.id in Ids(objs)
  {
    if o in objs {
      var i :| 0 <= i < |objs| && objs[i] == o;
      assert Ids(objs)[i] == o.id;
    }
  }

  /** With distinct ids, the others and the canonical object are the whole bucket. */
  lemma {:induction false} OthersPartition(versions: seq<Obj>, c: Obj)
    requires DistinctIds(versions) && c in versions
    ensures multiset(versions) == multiset{c} + multiset(Others(versions, c.id))
    decreases |versions|
  {
    var front, v := versions[..|versions| - 1], versions[|versions| - 1];
    assert versions == front + [v];
    MapConcat(IdOf, front, [v]);
    assert multiset(Ids(versions)) == multiset(Ids(front)) + multiset{v.id};
    assert DistinctIds(front) by {
      forall id ensures multiset(Ids(front))[id] <= 1 {
        assert multiset(Ids(front))[id] <= multiset(Ids(versions))[id];
      }
    }
    if v.id == c.id {
      assert multiset(Ids(versions))[v.id] <= 1;
      assert v.id !in multiset(Ids(front));
      OthersKeep(front, c.id);
      MemberId(front, c);
    } else {
      OthersPartition(front, c);
    }
  }

  function Sources(versions: seq<Obj>): set<Id> {
    set v | v in versions && v.body.source.Some? && v.body.source.value != "" :: v.body.source.value
  }

  function GroupOf(kind: GroupKind, scores: Scores, cost: Obj -> nat, versions: seq<Obj>): Group
    requires versions != []
  {
    var c := Canonical(kind, scores, versions);
    Group(kind, c.id, Ids(Others(versions, c.id)), Sources(versions), Sum(cost, Others(versions, c.id)))
  }

  predicate Foldable(kind: GroupKind, mayCollapse: bool, versions: seq<Obj>) {
    |versions| > 1 && (kind == History ==> mayCollapse && !exists v :: v in versions && IsContradiction(v))
  }

  /** What one bucket is reduced to: a group when it is foldable. */
  function GroupFor(kind: GroupKind, mayCollapse: bool, scores: Scores, cost: Obj -> nat,
                    versions: seq<Obj>): seq<Group> {
    if Foldable(kind, mayCollapse, versions) then [GroupOf(kind, scores, cost, versions)] else []
  }

  function GroupsFor(kind: GroupKind, mayCollapse: bool, scores: Scores, cost: Obj -> nat, objs: seq<Obj>,
                     keys: seq<string>)
    : seq<Group>
    decreases |keys|
  {
    if keys == [] then []
    else GroupsFor(kind, mayCollapse, scores, cost, objs, keys[..|keys| - 1])
         + GroupFor(kind, mayCollapse, scores, cost, Matching(objs, KeyOf(kind), Some(keys[|keys| - 1])))
  }

  /** A group is what some foldable bucket of the objects is reduced to. */
  ghost predicate IsGroup(kind: GroupKind, mayCollapse: bool, scores: Scores, cost: Obj -> nat, objs: seq<Obj>,
                          g: Group) {
    exists k :: g in GroupFor(kind, mayCollapse, scores, cost, Matching(objs, KeyOf(kind), Some(k)))
  }

  /******* What a group is, said of its members alone *******/

  /** An object without a score scores nothing. */
  predicate ScoresBelow(scores: Scores, v: Obj, c: Obj) {
    (if v.id in scores then scores[v.id] else 0.0) < (if c.id in scores then scores[c.id] else 0.0)
  }

  /** The first of the best scored stands here. */
  predicate BestHere(scores: Scores, versions: seq<Obj>, i: nat) {
    && i < |versions|
    && (forall j :: 0 <= j < i ==> ScoresBelow(scores, versions[j], versions[i]))
    && (forall j :: 0 <= j < |versions| ==> !ScoresBelow(scores, versions[i], versions[j]))
  }

  /** In a history the first current member is chosen, if there is one; else the first of the best scored. */
  ghost predicate ChosenAt(kind: GroupKind, scores: Scores, versions: seq<Obj>, i: nat) {
    && i < |versions|
    && if kind == History && exists v :: v in versions && IsCurrent(v)
       then IsCurrent(versions[i]) && forall j :: 0 <= j < i ==> !IsCurrent(versions[j])
       else BestHere(scores, versions, i)
  }

  function NotNamed(id: Id): Obj -> bool {
    (o: Obj) => o.id != id
  }

  function KeyedBy(key: Key, k: string): Obj -> bool {
    (o: Obj) => key(o) == Some(k)
  }

  predicate NamesAt(versions: seq<Obj>, ids: seq<Id>, at: seq<nat>) {
    |ids| == |at| && forall n :: 0 <= n < |at| ==> at[n] < |versions| && ids[n] == versions[at[n]].id
  }

  /** The chosen member is delivered, the others are folded in order, and the sources of all are named. */
  ghost predicate Folds(scores: Scores, versions: seq<Obj>, g: Group) {
    && (exists i: nat :: ChosenAt(g.kind, scores, versions, i) && g.canonical == versions[i].id)
    && (exists at :: Keeps(versions, NotNamed(g.canonical), at) && NamesAt(versions, g.collapsed, at))
    && (forall s :: s in g.sources <==> exists v :: v in versions && v.body.source == Some(s) && s != "")
  }

  /** The objects with one key, at least two and in order; a history only when it may be collapsed. */
  ghost predicate FoldsKey(mayCollapse: bool, scores: Scores, objs: seq<Obj>, g: Group, k: string, at: seq<nat>,
                           versions: seq<Obj>)
  {
    && Keeps(objs, KeyedBy(KeyOf(g.kind), k), at) && Picked(objs, at, versions)
    && |versions| >= 2 && (g.kind == History ==> mayCollapse) && Folds(scores, versions, g)
  }

  lemma {:induction false} MatchingKeeps(objs: seq<Obj>, key: Key, k: string) returns (at: seq<nat>)
    ensures Keeps(objs, KeyedBy(key, k), at) && Picked(objs, at, Matching(objs, key, Some(k)))
    decreases |objs|
  {
    if objs == [] {
      at := [];
    } else {
      var front, o := objs[..|objs| - 1], objs[|objs| - 1];
      assert front + [o] == objs;
      var before := MatchingKeeps(front, key, k);
      at := if key(o) == Some(k) then before + [|front|] else before;
      KeepsSnoc(front, o, KeyedBy(key, k), before);
      PickedSnoc(front, o, before, Matching(front, key, Some(k)));
    }
  }

  lemma {:induction false} OthersNamed(versions: seq<Obj>, id: Id) returns (at: seq<nat>)
    ensures Keeps(versions, NotNamed(id), at) && NamesAt(versions, Ids(Others(versions, id)), at)
    decreases |versions|
  {
    if versions == [] {
      at := [];
    } else {
      var front, v := versions[..|versions| - 1], versions[|versions| - 1];
      assert front + [v] == versions;
      var before := OthersNamed(front, id);
      at := if v.id != id then before + [|front|] else before;
      KeepsSnoc(front, v, NotNamed(id), before);
      MapConcat(IdOf, Others(front, id), [v]);
      NamesSnoc(front, v, Ids(Others(front, id)), before);
    }
  }

  lemma NamesSnoc(front: seq<Obj>, v: Obj, ids: seq<Id>, at: seq<nat>)
    requires NamesAt(front, ids, at)
    ensures NamesAt(front + [v], ids, at) && NamesAt(front + [v], ids + [v.id], at + [|front|])
  {
    assert forall i :: 0 <= i < |front| ==> (front + [v])[i] == front[i];
  }

  lemma BestSnoc(scores: Scores, front: seq<Obj>, v: Obj, i: nat)
    requires BestHere(scores, front, i)
    ensures BestHere(scores, front + [v], if ScoresBelow(scores, front[i], v) then |front| else i)
  {
    var all := front + [v];
    assert forall j :: 0 <= j < |front| ==> all[j] == front[j];
    if ScoresBelow(scores, front[i], v) {
      forall j | 0 <= j < |front| ensures ScoresBelow(scores, all[j], v) {
        assert !ScoresBelow(scores, front[i], front[j]);
      }
    }
  }

  lemma BestOfMore(scores: Scores, front: seq<Obj>, v: Obj)
    requires front != []
    ensures var b := Best(scores, front);
            Best(scores, front + [v]) == if ScoresBelow(scores, b, v) then v else b
  {
    assert (front + [v])[..|front|] == front;
  }

  lemma BestOfOne(scores: Scores, v: Obj)
    ensures BestPlaced(scores, [v], 0)
  {
  }

  /** The first of the best scored, and where it stands. */
  predicate BestPlaced(scores: Scores, versions: seq<Obj>, i: nat) {
    versions != [] && BestHere(scores, versions, i) && Best(scores, versions) == versions[i]
  }

  lemma {:induction false} BestAt(scores: Scores, versions: seq<Obj>) returns (i: nat)
    requires versions != []
    ensures BestPlaced(scores, versions, i)
    decreases |versions|
  {
    var n := |versions| - 1;
    if n == 0 {
      BestOfOne(scores, versions[0]);
      assert [versions[0]] == versions;
      i := 0;
    } else {
      var front, v := versions[..n], versions[n];
      i := BestAt(scores, front);
      i := BestLater(scores, front, v, i);
      assert front + [v] == versions;
    }
  }

  lemma BestLater(scores: Scores, front: seq<Obj>, v: Obj, before: nat) returns (i: nat)
    requires BestPlaced(scores, front, before)
    ensures BestPlaced(scores, front + [v], i)
  {
    BestOfMore(scores, front, v);
    BestSnoc(scores, front, v, before);
    i := if ScoresBelow(scores, front[before], v) then |front| else before;
  }

  lemma {:induction false} CurrentAt(versions: seq<Obj>) returns (i: nat)
    requires FirstCurrent(versions).Some?
    ensures i < |versions| && FirstCurrent(versions) == Some(versions[i]) && IsCurrent(versions[i])
    ensures forall j :: 0 <= j < i ==> !IsCurrent(versions[j])
    decreases |versions|
  {
    if IsCurrent(versions[0]) {
      i := 0;
    } else {
      var k := CurrentAt(versions[1..]);
      i := k + 1;
      assert forall j :: 0 < j < i ==> versions[j] == versions[1..][j - 1];
    }
  }

  lemma GroupFolds(kind: GroupKind, scores: Scores, cost: Obj -> nat, versions: seq<Obj>)
    requires versions != []
    ensures Folds(scores, versions, GroupOf(kind, scores, cost, versions))
  {
    var g, i := GroupOf(kind, scores, cost, versions), 0;
    if kind == History && FirstCurrent(versions).Some? {
      i := CurrentAt(versions);
    } else {
      i := BestAt(scores, versions);
    }
    assert ChosenAt(kind, scores, versions, i) && g.canonical == versions[i].id;
    var at := OthersNamed(versions, g.canonical);
    SourcesAre(versions);
  }

  lemma SourcesAre(versions: seq<Obj>)
    ensures forall s :: s in Sources(versions) <==> exists v :: v in versions && v.body.source == Some(s) && s != ""
  {
  }

  /** Every group folds the objects of one key, and tells what it folds. */
  lemma GroupIs(kind: GroupKind, mayCollapse: bool, scores: Scores, cost: Obj -> nat, objs: seq<Obj>, g: Group)
    requires IsGroup(kind, mayCollapse, scores, cost, objs, g)
    ensures g.kind == kind && exists k, at, versions :: FoldsKey(mayCollapse, scores, objs, g, k, at, versions)
  {
    var k :| g in GroupFor(kind, mayCollapse, scores, cost, Matching(objs, KeyOf(kind), Some(k)));
    var versions := Matching(objs, KeyOf(kind), Some(k));
    var at := MatchingKeeps(objs, KeyOf(kind), k);
    GroupFolds(kind, scores, cost, versions);
    assert FoldsKey(mayCollapse, scores, objs, g, k, at, versions);
  }

  lemma {:induction false} GroupsForKeys(kind: GroupKind, mayCollapse: bool, scores: Scores, cost: Obj -> nat,
                                         objs: seq<Obj>,
                                         keys: seq<string>, g: Group)
    ensures g in GroupsFor(kind, mayCollapse, scores, cost, objs, keys) <==>
            exists k :: k in keys &&
                        g in GroupFor(kind, mayCollapse, scores, cost, Matching(objs, KeyOf(kind), Some(k)))
    decreases |keys|
  {
    if keys != [] {
      var front, k := keys[..|keys| - 1], keys[|keys| - 1];
      assert keys == front + [k];
      GroupsForKeys(kind, mayCollapse, scores, cost, objs, front, g);
    }
  }

  /** A bucket that no object is in is not foldable, so that the keys found account for every group. */
  lemma GroupsAreAll(kind: GroupKind, mayCollapse: bool, scores: Scores, cost: Obj -> nat, objs: seq<Obj>,
                     keys: seq<string>, g: Group)
    requires forall o :: o in objs && KeyOf(kind)(o).Some? ==> KeyOf(kind)(o).value in keys
    ensures g in GroupsFor(kind, mayCollapse, scores, cost, objs, keys) <==>
            IsGroup(kind, mayCollapse, scores, cost, objs, g)
  {
    GroupsForKeys(kind, mayCollapse, scores, cost, objs, keys, g);
    if IsGroup(kind, mayCollapse, scores, cost, objs, g) {
      var k :| g in GroupFor(kind, mayCollapse, scores, cost, Matching(objs, KeyOf(kind), Some(k)));
      MatchingIn(objs, KeyOf(kind), Some(k));
      assert Matching(objs, KeyOf(kind), Some(k))[0] in Matching(objs, KeyOf(kind), Some(k));
    }
  }

  function FoldedIds(groups: seq<Group>): seq<Id>
    decreases |groups|
  {
    if groups == [] then [] else FoldedIds(groups[..|groups| - 1]) + groups[|groups| - 1].collapsed
  }

  function Saved(groups: seq<Group>): nat
    decreases |groups|
  {
    if groups == [] then 0 else Saved(groups[..|groups| - 1]) + groups[|groups| - 1].saved
  }

  lemma {:induction false} GroupsConcat(a: seq<Group>, b: seq<Group>)
    ensures FoldedIds(a + b) == FoldedIds(a) + FoldedIds(b) && Saved(a + b) == Saved(a) + Saved(b)
    decreases |b|
  {
    if b == [] {
      assert a + b == a;
    } else {
      assert (a + b)[..|a + b| - 1] == a + b[..|b| - 1];
      GroupsConcat(a, b[..|b| - 1]);
    }
  }

  predicate Delivers(kept: seq<Obj>, id: Id) {
    exists o :: o in kept && o.id == id
  }

  lemma DeliversMore(kept: seq<Obj>, more: seq<Obj>, id: Id)
    ensures Delivers(kept + more, id) <==> Delivers(kept, id) || Delivers(more, id)
  {
    if Delivers(kept, id) {
      var o :| o in kept && o.id == id;
      assert o in kept + more;
    }
    if Delivers(more, id) {
      var o :| o in more && o.id == id;
      assert o in kept + more;
    }
  }

  /** The groups tell what was folded and what it cost, and deliver their canonical objects. */
  ghost predicate Accounts(kind: GroupKind, cost: Obj -> nat, keep: seq<Obj>, groups: seq<Group>, folded: seq<Obj>) {
    && FoldedIds(groups) == Ids(folded)
    && Saved(groups) == Sum(cost, folded)
    && forall g :: g in groups ==> g.kind == kind && Delivers(keep, g.canonical)
  }

  lemma AccountsMore(kind: GroupKind, cost: Obj -> nat, keep1: seq<Obj>, groups1: seq<Group>, folded1: seq<Obj>,
                     keep2: seq<Obj>, groups2: seq<Group>, folded2: seq<Obj>)
    requires Accounts(kind, cost, keep1, groups1, folded1) && Accounts(kind, cost, keep2, groups2, folded2)
    ensures Accounts(kind, cost, keep1 + keep2, groups1 + groups2, folded1 + folded2)
  {
    GroupsConcat(groups1, groups2);
    SumConcat(cost, folded1, folded2);
    MapConcat(IdOf, folded1, folded2);
    forall g | g in groups1 + groups2 ensures g.kind == kind && Delivers(keep1 + keep2, g.canonical) {
      DeliversMore(keep1, keep2, g.canonical);
    }
  }

  lemma AccountsOne(kind: GroupKind, cost: Obj -> nat, c: Obj, g: Group, folded: seq<Obj>)
    requires g.collapsed == Ids(folded) && g.saved == Sum(cost, folded) && g.kind == kind && g.canonical == c.id
    ensures Accounts(kind, cost, [c], [g], folded)
  {
    assert c in [c];
    assert [g][..0] == [];
    assert FoldedIds([]) + g.collapsed == g.collapsed;
  }

  /** Reduces one bucket. */
  method Reduce(kind: GroupKind, mayCollapse: bool, scores: Scores, cost: Obj -> nat, versions: seq<Obj>)
    returns (keep: seq<Obj>, groups: seq<Group>, ghost folded: seq<Obj>)
    requires DistinctIds(versions)
    ensures multiset(keep) + multiset(folded) == multiset(versions)
    ensures groups == GroupFor(kind, mayCollapse, scores, cost, versions)
    ensures Accounts(kind, cost, keep, groups, folded)
  {
    if !Foldable(kind, mayCollapse, versions) {
      return versions, [], [];
    }
    var c := Canonical(kind, scores, versions);
    folded := Others(versions, c.id);
    OthersPartition(versions, c);
    keep := [c];
    var g := Group(kind, c.id, Ids(Others(versions, c.id)), Sources(versions), Sum(cost, Others(versions, c.id)));
    groups := [g];
    AccountsOne(kind, cost, c, g, folded);
  }

  /** Reduces every bucket in turn. */
  method ReduceAll(kind: GroupKind, mayCollapse: bool, scores: Scores, cost: Obj -> nat, objs: seq<Obj>,
                   keys: seq<string>,
                   buckets: map<string, seq<Obj>>)
    returns (keep: seq<Obj>, groups: seq<Group>, ghost folded: seq<Obj>)
    requires DistinctIds(objs)
    requires forall k :: k in keys ==> k in buckets && buckets[k] == Matching(objs, KeyOf(kind), Some(k))
    ensures multiset(keep) + multiset(folded) == Spread(objs, KeyOf(kind), keys)
    ensures groups == GroupsFor(kind, mayCollapse, scores, cost, objs, keys)
    ensures Accounts(kind, cost, keep, groups, folded)
  {
    keep, groups, folded := [], [], [];
    for i := 0 to |keys|
      invariant multiset(keep) + multiset(folded) == Spread(objs, KeyOf(kind), keys[..i])
      invariant groups == GroupsFor(kind, mayCollapse, scores, cost, objs, keys[..i])
      invariant Accounts(kind, cost, keep, groups, folded)
    {
      assert keys[..i + 1][..i] == keys[..i];
      MatchingDistinct(objs, KeyOf(kind), Some(keys[i]));
      var one, group, gone := Reduce(kind, mayCollapse, scores, cost, buckets[keys[i]]);
      AccountsMore(kind, cost, keep, groups, folded, one, group, gone);
      keep, groups, folded := keep + one, groups + group, folded + gone;
    }
    assert keys[..|keys|] == keys;
  }

  /** Groups objects by key and reduces the groups, accounting for every object. */
  method Fold(kind: GroupKind, mayCollapse: bool, scores: Scores, cost: Obj -> nat, objs: seq<Obj>)
    returns (keep: seq<Obj>, rest: seq<Obj>, groups: seq<Group>, ghost folded: seq<Obj>)
    requires DistinctIds(objs)
    ensures rest == Matching(objs, KeyOf(kind), None)
    ensures multiset(keep) + multiset(rest) + multiset(folded) == multiset(objs)
    ensures forall o :: o in keep ==> KeyOf(kind)(o).Some?
    ensures Accounts(kind, cost, keep, groups, folded)
    ensures forall g :: g in groups <==> IsGroup(kind, mayCollapse, scores, cost, objs, g)
  {
    var key := KeyOf(kind);
    var keys, buckets, others := Bucket(objs, key);
    keep, groups, folded := ReduceAll(kind, mayCollapse, scores, cost, objs, keys, buckets);
    rest := others;
    BucketsPartition(objs, key, keys);
    SpreadIsKeyed(objs, key, keys);
    forall o | o in keep ensures key(o).Some? {
      assert o in multiset(keep);
    }
    forall g ensures g in groups <==> IsGroup(kind, mayCollapse, scores, cost, objs, g) {
      GroupsAreAll(kind, mayCollapse, scores, cost, objs, keys, g);
    }
  }

  lemma MatchingDistinct(objs: seq<Obj>, key: Key, k: Option<string>)
    requires DistinctIds(objs)
    ensures DistinctIds(Matching(objs, key, k))
  {
    MatchingIds(objs, key, k);
    forall id ensures multiset(Ids(Matching(objs, key, k)))[id] <= 1 {
      assert multiset(Ids(Matching(objs, key, k)))[id] <= multiset(Ids(objs))[id];
    }
  }

  /******* The whole collapse *******/

  /** The retrieved objects, split into kept ones and ones folded into groups. */
  ghost predicate Conserves(objs: seq<Obj>, cost: Obj -> nat, kept: seq<Obj>, groups: seq<Group>) {
    && multiset(kept) <= multiset(objs)
    && multiset(Ids(kept)) + multiset(FoldedIds(groups)) == multiset(Ids(objs))
    && Sum(cost, kept) + Saved(groups) == Sum(cost, objs)
  }

  /** Statements first, when history may be collapsed; then duplicates among what is left. Every object
      is kept once or folded once, and the tokens kept and saved are the tokens of the input. */
  method Collapse(objs: seq<Obj>, scores: Scores, cost: Obj -> nat, mayCollapse: bool)
    returns (kept: seq<Obj>, groups: seq<Group>, historyCollapsed: bool)
    requires DistinctIds(objs)
    ensures Conserves(objs, cost, kept, groups)
    ensures forall g :: g in groups <==> IsGroup(g.kind, mayCollapse, scores, cost, objs, g)
    ensures forall g :: g in groups ==> Delivers(kept, g.canonical)
    ensures forall o :: o in objs && IsContradiction(o) ==> o in kept
    ensures historyCollapsed <==> exists g :: g in groups && g.kind == History
    ensures historyCollapsed ==> mayCollapse
  {
    var keep1, rest1, groups1, folded1 := Fold(History, mayCollapse, scores, cost, objs);
    var pool := keep1 + rest1;
    FirstSplit(objs, cost, keep1, rest1, folded1);
    var keep2, rest2, groups2, folded2 := Fold(Duplicate, mayCollapse, scores, cost, pool);
    kept, groups := rest2 + keep2, groups1 + groups2;
    historyCollapsed := groups1 != [];
    forall g ensures g in groups2 <==> IsGroup(Duplicate, mayCollapse, scores, cost, objs, g) {
      DuplicateGroups(objs, keep1, mayCollapse, scores, cost, g);
    }
    BothKinds(mayCollapse, scores, cost, objs, groups1, groups2);
    assert multiset(pool) + multiset(folded1) == multiset(objs);
    assert multiset(kept) + multiset(folded2) == multiset(pool);
    BothConserve(objs, cost, pool, groups1, folded1, kept, groups2, folded2);
    BothDeliver(cost, keep1, rest1, groups1, folded1, keep2, rest2, groups2, folded2);
    ContradictionsPass(objs, keep1);
  }

  lemma FirstSplit(objs: seq<Obj>, cost: Obj -> nat, keep: seq<Obj>, rest: seq<Obj>, folded: seq<Obj>)
    requires DistinctIds(objs) && multiset(keep) + multiset(rest) + multiset(folded) == multiset(objs)
    ensures DistinctIds(keep + rest)
  {
    assert multiset(keep + rest) + multiset(folded) == multiset(objs);
    SplitInTwo(objs, keep + rest, folded, cost);
  }

  lemma BothDeliver(cost: Obj -> nat, keep1: seq<Obj>, rest1: seq<Obj>, groups1: seq<Group>, folded1: seq<Obj>,
                    keep2: seq<Obj>, rest2: seq<Obj>, groups2: seq<Group>, folded2: seq<Obj>)
    requires Accounts(History, cost, keep1, groups1, folded1) && Accounts(Duplicate, cost, keep2, groups2, folded2)
    requires rest2 == Matching(keep1 + rest1, DuplicateKey, None) && forall o :: o in keep1 ==> StatementKey(o).Some?
    ensures forall g :: g in groups1 + groups2 ==> Delivers(rest2 + keep2, g.canonical)
  {
    forall g | g in groups1 + groups2 ensures Delivers(rest2 + keep2, g.canonical) {
      DeliversMore(rest2, keep2, g.canonical);
      if g in groups1 {
        StatementsPass(keep1, rest1, g.canonical);
      }
    }
  }

  lemma BothConserve(objs: seq<Obj>, cost: Obj -> nat, pool: seq<Obj>, groups1: seq<Group>, folded1: seq<Obj>,
                     kept: seq<Obj>, groups2: seq<Group>, folded2: seq<Obj>)
    requires FoldedIds(groups1) == Ids(folded1) && Saved(groups1) == Sum(cost, folded1)
    requires FoldedIds(groups2) == Ids(folded2) && Saved(groups2) == Sum(cost, folded2)
    requires multiset(pool) + multiset(folded1) == multiset(objs)
    requires multiset(kept) + multiset(folded2) == multiset(pool)
    ensures Conserves(objs, cost, kept, groups1 + groups2)
  {
    SplitInTwo(objs, pool, folded1, cost);
    SplitInTwo(pool, kept, folded2, cost);
    GroupsConcat(groups1, groups2);
  }

  lemma GroupKindIs(kind: GroupKind, mayCollapse: bool, scores: Scores, cost: Obj -> nat, objs: seq<Obj>, g: Group)
    requires IsGroup(kind, mayCollapse, scores, cost, objs, g)
    ensures g.kind == kind && (kind == History ==> mayCollapse)
  {
    var k :| g in GroupFor(kind, mayCollapse, scores, cost, Matching(objs, KeyOf(kind), Some(k)));
  }

  lemma BothKinds(mayCollapse: bool, scores: Scores, cost: Obj -> nat, objs: seq<Obj>, groups1: seq<Group>,
                  groups2: seq<Group>)
    requires forall g :: g in groups1 <==> IsGroup(History, mayCollapse, scores, cost, objs, g)
    requires forall g :: g in groups2 <==> IsGroup(Duplicate, mayCollapse, scores, cost, objs, g)
    ensures forall g :: g in groups1 + groups2 <==> IsGroup(g.kind, mayCollapse, scores, cost, objs, g)
    ensures groups1 != [] <==> exists g :: g in groups1 + groups2 && g.kind == History
    ensures groups1 != [] ==> mayCollapse
  {
    forall g, kind | IsGroup(kind, mayCollapse, scores, cost, objs, g)
      ensures g.kind == kind && (kind == History ==> mayCollapse)
    {
      GroupKindIs(kind, mayCollapse, scores, cost, objs, g);
    }
    forall g ensures g in groups1 + groups2 <==> IsGroup(g.kind, mayCollapse, scores, cost, objs, g) {
      assert g in groups1 + groups2 <==> g in groups1 || g in groups2;
      assert g.kind == History || g.kind == Duplicate;
    }
    if groups1 != [] {
      assert groups1[0] in groups1 + groups2;
    }
  }

  lemma ContradictionsPass(objs: seq<Obj>, keep: seq<Obj>)
    ensures forall o :: o in objs && IsContradiction(o) ==>
              o in Matching(keep + Matching(objs, StatementKey, None), DuplicateKey, None)
  {
    MatchingIn(objs, StatementKey, None);
    MatchingIn(keep + Matching(objs, StatementKey, None), DuplicateKey, None);
  }

  lemma DuplicateGroups(objs: seq<Obj>, keep: seq<Obj>, mayCollapse: bool, scores: Scores, cost: Obj -> nat, g: Group)
    requires forall o :: o in keep ==> StatementKey(o).Some?
    ensures IsGroup(Duplicate, mayCollapse, scores, cost, keep + Matching(objs, StatementKey, None), g) <==>
            IsGroup(Duplicate, mayCollapse, scores, cost, objs, g)
  {
    forall k
      ensures Matching(keep + Matching(objs, StatementKey, None), DuplicateKey, Some(k)) ==
              Matching(objs, DuplicateKey, Some(k))
    {
      SameDuplicates(objs, keep, k);
    }
  }

  lemma {:induction false} MatchingTwice(objs: seq<Obj>, k: string)
    ensures Matching(Matching(objs, StatementKey, None), DuplicateKey, Some(k)) == Matching(objs, DuplicateKey, Some(k))
    decreases |objs|
  {
    if objs != [] {
      var front, o := objs[..|objs| - 1], objs[|objs| - 1];
      MatchingTwice(front, k);
      var inner := Matching(front, StatementKey, None);
      assert (inner + [o])[..|inner|] == inner;
    }
  }

  /** Evidence carries no statement, so that folding statements leaves the duplicates as they were. */
  lemma SameDuplicates(objs: seq<Obj>, keep: seq<Obj>, k: string)
    requires forall o :: o in keep ==> StatementKey(o).Some?
    ensures Matching(keep + Matching(objs, StatementKey, None), DuplicateKey, Some(k)) ==
            Matching(objs, DuplicateKey, Some(k))
  {
    MatchingConcat(keep, Matching(objs, StatementKey, None), DuplicateKey, Some(k));
    NoneMatching(keep, DuplicateKey, k);
    MatchingTwice(objs, k);
  }

  lemma StatementsPass(keep: seq<Obj>, rest: seq<Obj>, id: Id)
    requires Delivers(keep, id) && forall o :: o in keep ==> StatementKey(o).Some?
    ensures Delivers(Matching(keep + rest, DuplicateKey, None), id)
  {
    var o :| o in keep && o.id == id;
    MatchingIn(keep + rest, DuplicateKey, None);
    assert o in Matching(keep + rest, DuplicateKey, None);
  }

  lemma SplitInTwo(objs: seq<Obj>, kept: seq<Obj>, folded: seq<Obj>, cost: Obj -> nat)
    requires multiset(kept) + multiset(folded) == multiset(objs)
    ensures Sum(cost, kept) + Sum(cost, folded) == Sum(cost, objs)
    ensures multiset(Ids(kept)) + multiset(Ids(folded)) == multiset(Ids(objs))
    ensures DistinctIds(objs) ==> DistinctIds(kept)
  {
    SumRearranged(cost, kept + folded, objs);
    MapRearranged(IdOf, kept + folded, objs);
    SumConcat(cost, kept, folded);
    MapConcat(IdOf, kept, folded);
    assert multiset(Ids(kept)) + multiset(Ids(folded)) == multiset(Ids(objs));
    if DistinctIds(objs) {
      forall id ensures multiset(Ids(kept))[id] <= 1 {
        assert multiset(Ids(kept))[id] <= multiset(Ids(objs))[id];
      }
    }
  }
}
