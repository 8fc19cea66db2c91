/** Superseding links between beliefs: lineages, and how their intervals tile transaction time. */
module Lineage {
  import opened Model
  import opened Temporal

  /** What a fact says about belief: when it began and ended, how it ended, and the fact it
      superseded. */
  datatype Belief = Belief(since: Time, until: Option<Time>, status: Status, prior: Option<Id>)

  type Beliefs = map<Id, Belief>

  predicate Holds(b: Belief, t: Time) {
    InInterval(t, Some(b.since), b.until)
  }

  /** One belief on a clock that shows `now`: it is open exactly while asserted, its interval is
      not reversed, and it began at the instant the belief it supersedes ended. */
  ghost predicate Coherent(bs: Beliefs, b: Belief, now: Time) {
    && b.since <= now
    && (b.status == Asserted || b.status == Superseded || b.status == Retracted)
    && (b.until.None? <==> b.status == Asserted)
    && (b.until.Some? ==> b.since <= b.until.value <= now)
    && (b.prior.Some? ==>
          b.prior.value in bs && bs[b.prior.value].status == Superseded && bs[b.prior.value].until == Some(b.since))
  }

  /** At most one belief supersedes another. */
  ghost predicate OneSuccessor(bs: Beliefs) {
    forall x, y :: x in bs && y in bs && bs[x].prior.Some? && bs[x].prior == bs[y].prior ==> x == y
  }

  /** Something supersedes the belief. */
  predicate HasSuccessor(bs: Beliefs, id: Id) {
    exists x :: x in bs && bs[x].prior == Some(id)
  }

  /** No belief is superseded by nothing. */
  ghost predicate AllSucceeded(bs: Beliefs) {
    forall id {:trigger HasSuccessor(bs, id)} :: id in bs && bs[id].status == Superseded ==> HasSuccessor(bs, id)
  }

  ghost predicate Coherence(bs: Beliefs, now: Time) {
    && (forall id :: id in bs ==> Coherent(bs, bs[id], now))
    && OneSuccessor(bs)
    && AllSucceeded(bs)
  }

  /******* Lineages *******/

  /** From a root, each belief superseding the one before it, up to one that nothing supersedes. */
  ghost predicate IsLineage(bs: Beliefs, c: seq<Id>) {
    && c != []
    && (forall i :: 0 <= i < |c| ==> c[i] in bs)
    && bs[c[0]].prior.None?
    && (forall i, j :: 0 <= i < j < |c| && j == i + 1 ==> bs[c[j]].prior == Some(c[i]))
    && (forall id :: id in bs ==> bs[id].prior != Some(c[|c| - 1]))
  }

  ghost predicate InLineage(bs: Beliefs, id: Id) {
    exists c :: IsLineage(bs, c) && id in c
  }

  ghost predicate AllInLineages(bs: Beliefs) {
    forall id {:trigger InLineage(bs, id)} :: id in bs ==> InLineage(bs, id)
  }

  /******* The three ways beliefs change *******/

  function Rooted(bs: Beliefs, id: Id, ts: Time): Beliefs {
    bs[id := Belief(ts, None, Asserted, None)]
  }

  function Closed(bs: Beliefs, f: Id, ts: Time, status: Status): Beliefs
    requires f in bs
  {
    bs[f := bs[f].(until := Some(ts), status := status)]
  }

  function Replaced(bs: Beliefs, f: Id, id: Id, ts: Time): Beliefs
    requires f in bs
  {
    Closed(bs, f, ts, Superseded)[id := Belief(ts, None, Asserted, Some(f))]
  }

  lemma RootCoheres(bs: Beliefs, id: Id, now: Time, ts: Time)
    requires Coherence(bs, now) && now <= ts && id !in bs
    ensures Coherence(Rooted(bs, id, ts), ts)
  {
    var later := Rooted(bs, id, ts);
    forall x | x in bs ensures Coherent(later, bs[x], ts) {
      assert Coherent(bs, bs[x], now);
    }
    forall x | x in later && later[x].status == Superseded ensures HasSuccessor(later, x) {
      SuccessorStays(bs, later, x);
    }
  }

  /** A successor stays one. */
  lemma SuccessorStays(bs: Beliefs, later: Beliefs, id: Id)
    requires forall x :: x in bs ==> x in later && later[x].prior == bs[x].prior
    ensures HasSuccessor(bs, id) ==> HasSuccessor(later, id)
  {
    if HasSuccessor(bs, id) {
      var x :| x in bs && bs[x].prior == Some(id);
      assert later[x].prior == Some(id);
    }
  }

  lemma RetractCoheres(bs: Beliefs, f: Id, now: Time, ts: Time)
    requires Coherence(bs, now) && now <= ts && f in bs && bs[f].until.None?
    ensures Coherence(Closed(bs, f, ts, Retracted), ts)
  {
    var later := Closed(bs, f, ts, Retracted);
    forall x | x in later ensures Coherent(later, later[x], ts) {
      assert Coherent(bs, bs[x], now);
      assert Coherent(bs, bs[f], now);
    }
    forall x | x in later && later[x].status == Superseded ensures HasSuccessor(later, x) {
      assert HasSuccessor(bs, x);
      SuccessorStays(bs, later, x);
    }
  }

  /** Nothing supersedes an open belief yet. */
  lemma OpenHasNoSuccessor(bs: Beliefs, f: Id, now: Time, x: Id)
    requires Coherence(bs, now) && f in bs && bs[f].until.None? && x in bs
    ensures bs[x].prior != Some(f)
  {
    assert Coherent(bs, bs[x], now);
  }

  lemma ReplaceCoheres(bs: Beliefs, f: Id, id: Id, now: Time, ts: Time)
    requires Coherence(bs, now) && now <= ts && f in bs && bs[f].until.None? && id !in bs
    ensures Coherence(Replaced(bs, f, id, ts), ts)
  {
    var later := Replaced(bs, f, id, ts);
    forall x | x in later ensures Coherent(later, later[x], ts) {
      assert Coherent(bs, bs[f], now);
      if x != id {
        assert Coherent(bs, bs[x], now);
      }
    }
    forall x | x in bs ensures bs[x].prior != Some(f) {
      OpenHasNoSuccessor(bs, f, now, x);
    }
    forall x | x in later && later[x].status == Superseded ensures HasSuccessor(later, x) {
      if x == f {
        assert later[id].prior == Some(f);
      } else {
        assert HasSuccessor(bs, x);
        SuccessorStays(bs, later, x);
      }
    }
  }

  lemma CoherenceLater(bs: Beliefs, now: Time, ts: Time)
    requires Coherence(bs, now) && now <= ts
    ensures Coherence(bs, ts)
  {
    forall id | id in bs ensures Coherent(bs, bs[id], ts) {
      assert Coherent(bs, bs[id], now);
    }
  }

  /** A lineage stays one while nothing new supersedes its last belief. */
  lemma LineageStays(bs: Beliefs, later: Beliefs, c: seq<Id>)
    requires IsLineage(bs, c)
    requires forall x :: x in bs ==> x in later && later[x].prior == bs[x].prior
    requires forall x :: x in later && x !in bs ==> later[x].prior != Some(c[|c| - 1])
    ensures IsLineage(later, c)
  {
  }

  lemma StaysInLineage(bs: Beliefs, later: Beliefs, x: Id)
    requires InLineage(bs, x)
    requires forall y :: y in bs ==> y in later && later[y].prior == bs[y].prior
    requires forall y :: y in later && y !in bs ==> later[y].prior.None?
    ensures InLineage(later, x)
  {
    var c :| IsLineage(bs, c) && x in c;
    LineageStays(bs, later, c);
  }

  lemma RootLineages(bs: Beliefs, id: Id, now: Time, ts: Time)
    requires Coherence(bs, now) && AllInLineages(bs) && id !in bs
    ensures AllInLineages(Rooted(bs, id, ts))
  {
    var later := Rooted(bs, id, ts);
    forall x | x in bs ensures later[x].prior != Some(id) {
      assert Coherent(bs, bs[x], now);
    }
    assert IsLineage(later, [id]) && id in [id];
    forall x | x in later && x != id ensures InLineage(later, x) {
      assert InLineage(bs, x);
      StaysInLineage(bs, later, x);
    }
  }

  lemma RetractLineages(bs: Beliefs, f: Id, ts: Time)
    requires AllInLineages(bs) && f in bs
    ensures AllInLineages(Closed(bs, f, ts, Retracted))
  {
    var later := Closed(bs, f, ts, Retracted);
    forall x | x in later ensures InLineage(later, x) {
      assert InLineage(bs, x);
      StaysInLineage(bs, later, x);
    }
  }

  /** An open belief is the last of its lineage. */
  lemma OpenIsLast(bs: Beliefs, c: seq<Id>, f: Id, now: Time)
    requires Coherence(bs, now) && IsLineage(bs, c) && f in c && bs[f].until.None?
    ensures c[|c| - 1] == f
  {
    var i :| 0 <= i < |c| && c[i] == f;
    if i < |c| - 1 {
      OpenHasNoSuccessor(bs, f, now, c[i + 1]);
    }
  }

  lemma ExtendLineage(bs: Beliefs, later: Beliefs, c: seq<Id>, f: Id, id: Id)
    requires IsLineage(bs, c) && c[|c| - 1] == f && id !in bs
    requires later.Keys == bs.Keys + {id} && later[id].prior == Some(f)
    requires forall x :: x in bs ==> later[x].prior == bs[x].prior && bs[x].prior != Some(id)
    requires f != id
    ensures IsLineage(later, c + [id])
  {
  }

  lemma ReplacedInLineage(bs: Beliefs, f: Id, id: Id, now: Time, ts: Time, y: Id)
    requires Coherence(bs, now) && f in bs && bs[f].until.None? && id !in bs && InLineage(bs, y)
    ensures var later := Replaced(bs, f, id, ts); InLineage(later, y) && (y == f ==> InLineage(later, id))
  {
    var later := Replaced(bs, f, id, ts);
    var c :| IsLineage(bs, c) && y in c;
    if c[|c| - 1] == f {
      forall x | x in bs ensures bs[x].prior != Some(id) {
        assert Coherent(bs, bs[x], now);
      }
      ExtendLineage(bs, later, c, f, id);
      assert y in c + [id] && id in c + [id];
    } else {
      if y == f {
        OpenIsLast(bs, c, f, now);
      }
      LineageStays(bs, later, c);
    }
  }

  /** The lineage of the superseded belief grows by the replacement; the others stay. */
  lemma ReplaceLineages(bs: Beliefs, f: Id, id: Id, now: Time, ts: Time)
    requires Coherence(bs, now) && AllInLineages(bs) && f in bs && bs[f].until.None? && id !in bs
    ensures AllInLineages(Replaced(bs, f, id, ts))
  {
    var later := Replaced(bs, f, id, ts);
    forall x | x in later ensures InLineage(later, x) {
      var y := if x == id then f else x;
      assert InLineage(bs, y);
      ReplacedInLineage(bs, f, id, now, ts, y);
    }
  }

  /******* Tiling *******/

  lemma {:induction false} SinceOrdered(bs: Beliefs, c: seq<Id>, now: Time, i: nat, j: nat)
    requires Coherence(bs, now) && IsLineage(bs, c) && i <= j < |c|
    ensures bs[c[i]].since <= bs[c[j]].since
    decreases j
  {
    if i < j {
      SinceOrdered(bs, c, now, i, j - 1);
      assert Coherent(bs, bs[c[j]], now) && Coherent(bs, bs[c[j - 1]], now);
    }
  }

  /** The last belief of a lineage that had begun by `t`. */
  function Latest(bs: Beliefs, c: seq<Id>, t: Time, k: nat): nat
    requires forall i :: 0 <= i < |c| ==> c[i] in bs
    requires k < |c|
    decreases k
  {
    if k == 0 || bs[c[k]].since <= t then k else Latest(bs, c, t, k - 1)
  }

  lemma {:induction false} LatestIs(bs: Beliefs, c: seq<Id>, t: Time, k: nat)
    requires (forall i :: 0 <= i < |c| ==> c[i] in bs) && k < |c| && bs[c[0]].since <= t
    ensures var i := Latest(bs, c, t, k);
            i <= k && bs[c[i]].since <= t && forall j :: i < j <= k ==> t < bs[c[j]].since
    decreases k
  {
    if k > 0 && bs[c[k]].since > t {
      LatestIs(bs, c, t, k - 1);
    }
  }

  ghost predicate ExactlyOne(bs: Beliefs, c: seq<Id>, t: Time)
    requires forall i :: 0 <= i < |c| ==> c[i] in bs
  {
    exists i :: 0 <= i < |c| && Holds(bs[c[i]], t) &&
      forall j :: 0 <= j < |c| && j != i ==> !Holds(bs[c[j]], t)
  }

  /** The last belief of a lineage is still held, or it was retracted: a superseded one has a successor. */
  lemma LastIsOpenOrRetracted(bs: Beliefs, c: seq<Id>, now: Time)
    requires Coherence(bs, now) && IsLineage(bs, c)
    ensures var last := bs[c[|c| - 1]];
            (last.status == Asserted && last.until.None?) || (last.status == Retracted && last.until.Some?)
  {
    var last := c[|c| - 1];
    assert Coherent(bs, bs[last], now);
    assert !HasSuccessor(bs, last);
  }

  /** While the last belief of the lineage lasts, every instant since the root has exactly one
      holder; before the root and after a retraction there is none. */
  ghost predicate TiledAt(bs: Beliefs, c: seq<Id>, t: Time)
    requires IsLineage(bs, c)
  {
    var first, last := bs[c[0]], bs[c[|c| - 1]];
    if first.since <= t && (last.until.Some? ==> t < last.until.value)
    then ExactlyOne(bs, c, t)
    else forall j :: 0 <= j < |c| ==> !Holds(bs[c[j]], t)
  }

  lemma NotBoth(bs: Beliefs, c: seq<Id>, now: Time, i: nat, j: nat, t: Time)
    requires Coherence(bs, now) && IsLineage(bs, c) && i < j < |c| && Holds(bs[c[j]], t)
    ensures !Holds(bs[c[i]], t)
  {
    SinceOrdered(bs, c, now, i + 1, j);
    assert Coherent(bs, bs[c[i + 1]], now);
  }

  /** A belief inside a lineage ends when the next begins; so every belief ends by the end of the
      last. */
  lemma EndsByLast(bs: Beliefs, c: seq<Id>, now: Time, j: nat, t: Time)
    requires Coherence(bs, now) && IsLineage(bs, c) && j < |c| && Holds(bs[c[j]], t)
    ensures var last := bs[c[|c| - 1]]; last.until.Some? ==> t < last.until.value
  {
    if j < |c| - 1 {
      SinceOrdered(bs, c, now, j + 1, |c| - 1);
      assert Coherent(bs, bs[c[j + 1]], now) && Coherent(bs, bs[c[|c| - 1]], now);
    }
  }

  lemma CoherentLineageTiles(bs: Beliefs, c: seq<Id>, now: Time, t: Time)
    requires Coherence(bs, now) && IsLineage(bs, c)
    ensures TiledAt(bs, c, t)
  {
    var first, last := bs[c[0]], bs[c[|c| - 1]];
    if first.since <= t && (last.until.Some? ==> t < last.until.value) {
      LatestIs(bs, c, t, |c| - 1);
      var i := Latest(bs, c, t, |c| - 1);
      assert i < |c| - 1 ==> Coherent(bs, bs[c[i + 1]], now);
      assert Holds(bs[c[i]], t);
      forall j | 0 <= j < |c| && j != i ensures !Holds(bs[c[j]], t) {
        if j < i {
          NotBoth(bs, c, now, j, i, t);
        }
      }
    } else {
      forall j | 0 <= j < |c| ensures !Holds(bs[c[j]], t) {
        if Holds(bs[c[j]], t) {
          SinceOrdered(bs, c, now, 0, j);
          EndsByLast(bs, c, now, j, t);
        }
      }
    }
  }

  /** A root has one lineage. */
  lemma {:induction false} LineageAgrees(bs: Beliefs, c: seq<Id>, d: seq<Id>, k: nat)
    requires OneSuccessor(bs) && IsLineage(bs, c) && IsLineage(bs, d) && c[0] == d[0] && k < |c|
    ensures k < |d| && c[k] == d[k]
    decreases k
  {
    if k > 0 {
      LineageAgrees(bs, c, d, k - 1);
      assert bs[c[k]].prior == Some(c[k - 1]);
      assert k < |d|;
    }
  }

  lemma LineageUnique(bs: Beliefs, c: seq<Id>, d: seq<Id>)
    requires OneSuccessor(bs) && IsLineage(bs, c) && IsLineage(bs, d) && c[0] == d[0]
    ensures c == d
  {
    forall k | 0 <= k < |c| ensures k < |d| && c[k] == d[k] {
      LineageAgrees(bs, c, d, k);
    }
    LineageAgrees(bs, d, c, |d| - 1);
  }
}
