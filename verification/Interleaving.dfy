/** Interleaved calls: when the lineages still tile transaction time, and how they fail to. */
module Interleaving {
  import opened Model
  import opened Projection
  import opened Ledger
  import opened Store
  import opened Operations
  import opened Live
  import opened Runs
  import opened Lineage
  import opened FactBeliefs
  import Temporal

  /******* What every interleaved run keeps *******/

  ghost predicate Steady(h: Hash, s: System) {
    && Invariant(h, s)
    && Dated(s.objects)
    && forall t :: t in s.pending ==> Planned(s.pending[t])
  }

  /** A check changes no more than what is pending, and adds no more than the plan. */
  lemma CheckPends(h: Hash, s: System, t: nat, c: Call, seen: Objects)
    requires Guard(seen, c)
    ensures var later := Next(h, s, Check(t, c, seen));
            && later.objects == s.objects && later.ledger == s.ledger
            && forall u :: u in later.pending ==>
                 (u in s.pending && later.pending[u] == s.pending[u]) || later.pending[u] == Plan(seen, c)
  {
  }

  lemma CheckSteady(h: Hash, s: System, t: nat, c: Call, seen: Objects)
    requires Steady(h, s) && AllEvolve(seen, s.objects) && Guard(seen, c)
    requires Invariant(h, Next(h, s, Check(t, c, seen)))
    ensures Steady(h, Next(h, s, Check(t, c, seen)))
  {
    SeenIsPlanned(seen, s.objects, c);
    CheckPends(h, s, t, c, seen);
  }

  lemma SeenIsPlanned(seen: Objects, objs: Objects, c: Call)
    requires Keyed(objs) && AllEvolve(seen, objs) && Guard(seen, c)
    ensures Planned(Plan(seen, c))
  {
    SeenIsKeyed(seen, objs);
    PlanIsPlanned(seen, c);
  }

  lemma SeenIsKeyed(seen: Objects, objs: Objects)
    requires Keyed(objs) && AllEvolve(seen, objs)
    ensures Keyed(seen)
  {
    forall id | id in seen ensures seen[id].id == id {
      assert Evolves(seen[id], objs[id]);
    }
  }

  lemma StepSteady(h: Hash, s: System, step: Step)
    requires Steady(h, s) && Invariant(h, Next(h, s, step))
    ensures Steady(h, Next(h, s, step))
  {
    match step
    case Check(t, c, seen) =>
      if AllEvolve(seen, s.objects) && Guard(seen, c) {
        CheckSteady(h, s, t, c, seen);
      }
    case Commit(t) =>
      if t in s.pending {
        CommitSteady(h, s, t);
      }
    case Abandon(_) =>
  }

  lemma CommitSteady(h: Hash, s: System, t: nat)
    requires Steady(h, s) && t in s.pending && Invariant(h, Next(h, s, Commit(t)))
    ensures Steady(h, Next(h, s, Commit(t)))
  {
    if Transacted(s.objects, s.pending[t]).ok {
      DatedStays(s.objects, s.pending[t]);
    }
  }

  lemma {:induction false} RunSteady(h: Hash, steps: seq<Step>)
    ensures Steady(h, Run(h, steps))
    decreases |steps|
  {
    RunInvariant(h, steps);
    if steps != [] {
      RunSteady(h, steps[..|steps| - 1]);
      StepSteady(h, Run(h, steps[..|steps| - 1]), steps[|steps| - 1]);
    }
  }

  /******* Timely commits *******/

  /** A step that commits a replacement finds the fact it replaces still open. */
  predicate TimelyStep(s: System, step: Step) {
    step.Commit? && step.thread in s.pending && Transacted(s.objects, s.pending[step.thread]).ok ==>
      Timely(s.objects, s.pending[step.thread])
  }

  predicate TimelyAt(h: Hash, steps: seq<Step>, i: nat)
    requires i < |steps|
  {
    TimelyStep(Run(h, steps[..i]), steps[i])
  }

  predicate AllTimely(h: Hash, steps: seq<Step>) {
    forall i :: 0 <= i < |steps| ==> TimelyAt(h, steps, i)
  }

  /** The clock when the last record was stamped. */
  function LastStamp(ledger: seq<Record>): Time {
    if ledger == [] then 0 else ledger[|ledger| - 1].event.ts
  }

  lemma CommitStamps(h: Hash, ledger: seq<Record>, es: seq<Event>)
    requires Chain(h, ledger) && Planned(es) && NonDecreasing(Extended(h, ledger, es))
    ensures NonDecreasing(ledger) && LastStamp(Extended(h, ledger, es)) == es[0].ts
    ensures ledger != [] ==> LastStamp(ledger) <= es[0].ts
  {
    ExtendedIsReplayed(h, ledger, es);
    var longer := Extended(h, ledger, es);
    assert forall i :: 0 <= i < |ledger| ==> longer[i] == ledger[i];
    assert longer[|ledger| + (|es| - 1)].event == es[|es| - 1];
    assert ledger != [] ==> longer[|ledger| - 1].event.ts <= longer[|longer| - 1].event.ts;
  }

  /******* A broken link never heals *******/

  /** `x` supersedes a fact that was retracted, or that another fact supersedes as well. */
  predicate BrokenLink(bs: Beliefs, x: Id, f: Id) {
    && x in bs && f in bs && bs[x].prior == Some(f)
    && ((bs[f].until.Some? && bs[f].status != Superseded) || exists y :: y in bs && y != x && bs[y].prior == Some(f))
  }

  ghost predicate Broken(bs: Beliefs) {
    exists x, f :: BrokenLink(bs, x, f)
  }

  lemma BrokenIsIncoherent(bs: Beliefs, now: Time)
    requires Broken(bs)
    ensures !Coherence(bs, now)
  {
    var x, f :| BrokenLink(bs, x, f);
    assert Coherence(bs, now) ==> Coherent(bs, bs[x], now);
  }

  lemma BrokenStays(objs: Objects, later: Objects)
    requires AllEvolve(objs, later) && Broken(BeliefsOf(objs))
    ensures Broken(BeliefsOf(later))
  {
    var bs, bl := BeliefsOf(objs), BeliefsOf(later);
    var x, f :| BrokenLink(bs, x, f);
    forall y | y in bs
      ensures y in bl && bl[y].prior == bs[y].prior
      ensures bs[y].until.Some? ==> bl[y].until == bs[y].until && bl[y].status == bs[y].status
    {
      assert Evolves(objs[y], later[y]);
    }
    assert BrokenLink(bl, x, f);
  }

  lemma UntimelyBreaks(objs: Objects, es: seq<Event>, now: Time)
    requires Prepared(objs, es) && Planned(es) && !Timely(objs, es)
    requires Coherence(BeliefsOf(objs), now)
    ensures Broken(Committed(BeliefsOf(objs), es))
  {
    var bs, f, r := BeliefsOf(objs), es[0].payload.factId, es[1].payload.obj;
    assert Proper(objs, es[0]) && Proper(objs, es[1]);
    assert Coherent(bs, bs[f], now);
    var later := Committed(bs, es);
    assert later == bs[r.id := BeliefOf(r)];
    if bs[f].status == Superseded {
      assert HasSuccessor(bs, f);
      var y :| y in bs && bs[y].prior == Some(f);
      assert y in later && later[y].prior == Some(f) && y != r.id;
    }
    assert BrokenLink(later, r.id, f);
  }

  /******* The exact condition *******/

  /** The state of the beliefs, given whether all commits so far were timely. */
  ghost predicate Verdict(s: System, timely: bool) {
    var bs := BeliefsOf(s.objects);
    if timely then Coherence(bs, LastStamp(s.ledger)) && AllInLineages(bs) else Broken(bs)
  }

  lemma CommitVerdict(h: Hash, s: System, t: nat, timely: bool)
    requires Steady(h, s) && t in s.pending && Transacted(s.objects, s.pending[t]).ok
    requires NonDecreasing(Next(h, s, Commit(t)).ledger) && Verdict(s, timely)
    ensures Verdict(Next(h, s, Commit(t)), timely && Timely(s.objects, s.pending[t]))
  {
    var es := s.pending[t];
    CommitStamps(h, s.ledger, es);
    CommitBeliefs(s.objects, es);
    CommitEvolves(s.objects, es);
    if !timely {
      BrokenStays(s.objects, Transacted(s.objects, es).objects);
    } else {
      var now := if s.ledger == [] then es[0].ts else LastStamp(s.ledger);
      if s.ledger == [] {
        assert BeliefsOf(map[]) == map[];
      }
      if Timely(s.objects, es) {
        CommitCoheres(s.objects, es, now);
      } else {
        UntimelyBreaks(s.objects, es, now);
      }
    }
  }

  lemma {:induction false} RunVerdict(h: Hash, steps: seq<Step>)
    requires NonDecreasing(Run(h, steps).ledger)
    ensures Verdict(Run(h, steps), AllTimely(h, steps))
    decreases |steps|
  {
    if steps == [] {
      assert BeliefsOf(map[]) == map[];
    } else {
      var n := |steps| - 1;
      var front, last, s := steps[..n], steps[n], Run(h, steps[..n]);
      RunSteady(h, front);
      LedgerGrows(h, steps, n);
      PrefixOrdered(s.ledger, Run(h, steps).ledger);
      RunVerdict(h, front);
      TimelySnoc(h, steps);
      StepVerdict(h, s, last, AllTimely(h, front));
    }
  }

  lemma StepVerdict(h: Hash, s: System, step: Step, timely: bool)
    requires Steady(h, s) && NonDecreasing(Next(h, s, step).ledger) && Verdict(s, timely)
    ensures Verdict(Next(h, s, step), timely && TimelyStep(s, step))
  {
    if step.Commit? && step.thread in s.pending && Transacted(s.objects, s.pending[step.thread]).ok {
      CommitVerdict(h, s, step.thread, timely);
    }
  }

  lemma TimelyPrefix(h: Hash, steps: seq<Step>, n: nat, i: nat)
    requires i < n <= |steps|
    ensures TimelyAt(h, steps[..n], i) <==> TimelyAt(h, steps, i)
  {
    assert steps[..n][i] == steps[i] && steps[..n][..i] == steps[..i];
  }

  lemma TimelySnoc(h: Hash, steps: seq<Step>)
    requires steps != []
    ensures var n := |steps| - 1;
            AllTimely(h, steps) <==> AllTimely(h, steps[..n]) && TimelyAt(h, steps, n)
  {
    var n := |steps| - 1;
    forall i | 0 <= i < n ensures TimelyAt(h, steps[..n], i) <==> TimelyAt(h, steps, i) {
      TimelyPrefix(h, steps, n, i);
    }
    if AllTimely(h, steps[..n]) && TimelyAt(h, steps, n) {
      forall i | 0 <= i < |steps| ensures TimelyAt(h, steps, i) {
        if i < n {
          assert TimelyAt(h, steps[..n], i);
        }
      }
    }
  }

  lemma PrefixOrdered(ledger: seq<Record>, longer: seq<Record>)
    requires ledger <= longer && NonDecreasing(longer)
    ensures NonDecreasing(ledger)
  {
    assert forall i :: 0 <= i < |ledger| ==> longer[i] == ledger[i];
  }

  /** In an interleaved run whose records are stamped in order, the beliefs are coherent if and only if every
      committed replacement found the fact it replaces still open; and then every fact lies in a lineage that
      tiles transaction time. */
  lemma CoherentIffTimely(h: Hash, steps: seq<Step>)
    requires NonDecreasing(Run(h, steps).ledger)
    ensures var s := Run(h, steps); Coherence(BeliefsOf(s.objects), LastStamp(s.ledger)) <==> AllTimely(h, steps)
    ensures AllTimely(h, steps) ==> forall id :: IsFact(Run(h, steps).objects, id) ==>
              exists c :: IsLineage(BeliefsOf(Run(h, steps).objects), c) && id in c &&
                          TilesTime(Run(h, steps).objects, c)
  {
    RunVerdict(h, steps);
    RunSteady(h, steps);
    var s := Run(h, steps);
    if AllTimely(h, steps) {
      forall id | IsFact(s.objects, id)
        ensures exists c :: IsLineage(BeliefsOf(s.objects), c) && id in c && TilesTime(s.objects, c)
      {
        FactTiles(s.objects, id, LastStamp(s.ledger));
      }
    } else {
      BrokenIsIncoherent(BeliefsOf(s.objects), LastStamp(s.ledger));
    }
  }

  /******* A run that is not timely *******/

  lemma RunSnoc(h: Hash, steps: seq<Step>, step: Step)
    ensures Run(h, steps + [step]) == Next(h, Run(h, steps), step)
  {
    assert (steps + [step])[..|steps|] == steps;
  }

  function SupersedeCall(who: Who, ts: Time, factId: Id, newId: Id, v: NewValue): Call {
    Call(who, ts, Request.Supersede(factId, newId, v, None, None), true)
  }

  lemma RunSix(h: Hash, a: Step, b: Step, c: Step, d: Step, e: Step, f: Step)
    ensures Run(h, [a, b, c, d, e, f]) == Next(h, Next(h, Next(h, Next(h, Next(h, Next(h, START, a), b), c), d), e), f)
  {
    RunSnoc(h, [], a);
    assert [] + [a] == [a];
    RunSnoc(h, [a], b);
    RunSnoc(h, [a] + [b], c);
    RunSnoc(h, [a] + [b] + [c], d);
    RunSnoc(h, [a] + [b] + [c] + [d], e);
    RunSnoc(h, [a] + [b] + [c] + [d] + [e], f);
    assert [a] + [b] + [c] + [d] + [e] + [f] == [a, b, c, d, e, f];
  }

  /** A fact that its author asserts at time 1. */
  predicate FirstFact(o: Obj, who: Who) {
    && Minted(o.id) && NewObject(o, Fact, who, 1) && o.body.supersedes == []
    && RefsInScope(map[], who, o) && ValidInterval(o)
  }

  lemma AssertFirst(h: Hash, o: Obj, who: Who)
    requires FirstFact(o, who)
    ensures var s := Next(h, Next(h, START, Check(0, Call(who, 1, Create(FactAsserted, o), true), map[])), Commit(0));
            s.objects == map[o.id := o] && s.pending == map[] && s.used == {o.id}
  {
    var c := Call(who, 1, Create(FactAsserted, o), true);
    assert Guard(map[], c) && AllEvolve(map[], map[]);
    SingleTransacted(map[], Plan(map[], c)[0]);
    SingleEdit(map[], Plan(map[], c)[0]);
  }

  lemma CheckBoth(h: Hash, s: System, o: Obj, who: Who, x: Id, y: Id, v: NewValue)
    requires FirstFact(o, who) && Minted(x) && Minted(y) && x != y && o.id != x && o.id != y && v.validTo.None?
    requires s.objects == map[o.id := o] && s.pending == map[] && s.used == {o.id}
    ensures var c, d := SupersedeCall(who, 2, o.id, x, v), SupersedeCall(who, 3, o.id, y, v);
            var r := Next(h, Next(h, s, Check(0, c, s.objects)), Check(1, d, s.objects));
            && r.objects == s.objects
            && r.pending == map[0 := Replace(c, o.id, None, Replacement(o, x, 2, v, None)),
                                1 := Replace(d, o.id, None, Replacement(o, y, 3, v, None))]
  {
    ItselfEvolves(s.objects);
    assert Guard(s.objects, SupersedeCall(who, 2, o.id, x, v));
    assert Guard(s.objects, SupersedeCall(who, 3, o.id, y, v));
  }

  lemma CommitBoth(h: Hash, s: System, o: Obj, c: Call, r: Obj, d: Call, q: Obj)
    requires o.kind == Fact && r.id != q.id && o.id != r.id && o.id != q.id && o.txTo.None?
    requires InScope(o, c.who.tenant, c.who.namespace) && InScope(r, c.who.tenant, c.who.namespace)
    requires InScope(o, d.who.tenant, d.who.namespace) && InScope(q, d.who.tenant, d.who.namespace)
    requires s.objects == map[o.id := o]
    requires s.pending == map[0 := Replace(c, o.id, None, r), 1 := Replace(d, o.id, None, q)]
    ensures Next(h, Next(h, s, Commit(0)), Commit(1)).objects ==
            map[o.id := o.(txTo := Some(c.ts), status := Superseded), r.id := r, q.id := q]
  {
    var closed := o.(txTo := Some(c.ts), status := Superseded);
    CommitReplace(h, s, 0, c, o.id, r);
    var mid := Next(h, s, Commit(0));
    assert mid.objects == map[o.id := closed, r.id := r];
    CommitReplace(h, mid, 1, d, o.id, q);
    assert Perform(closed, CloseFact(Some(d.ts), Superseded)) == closed;
  }

  lemma CommitReplace(h: Hash, s: System, t: nat, c: Call, f: Id, r: Obj)
    requires t in s.pending && s.pending[t] == Replace(c, f, None, r)
    requires Keyed(s.objects) && IsFact(s.objects, f) && r.id !in s.objects
    requires InScope(s.objects[f], c.who.tenant, c.who.namespace) && InScope(r, c.who.tenant, c.who.namespace)
    ensures var n := Next(h, s, Commit(t));
            && n.objects == s.objects[f := Perform(s.objects[f], CloseFact(Some(c.ts), Superseded))][r.id := r]
            && n.pending == s.pending - {t}
  {
    ReplaceObjects(s.objects, c, f, r);
  }

  /** Two threads may both check that a fact is open, and then both supersede it: the fact ends
      with the first, and the two replacements are believed at the same time. */
  lemma InterleavedReplacementsOverlap(h: Hash, o: Obj, who: Who, x: Id, y: Id, v: NewValue)
    requires FirstFact(o, who) && Minted(x) && Minted(y) && x != y && o.id != x && o.id != y && v.validTo.None?
    ensures var s := Run(h, [Check(0, Call(who, 1, Create(FactAsserted, o), true), map[]), Commit(0),
                             Check(0, SupersedeCall(who, 2, o.id, x, v), map[o.id := o]),
                             Check(1, SupersedeCall(who, 3, o.id, y, v), map[o.id := o]),
                             Commit(0), Commit(1)]).objects;
            && {o.id, x, y} <= s.Keys
            && s[x].body.supersedes == s[y].body.supersedes == [o.id]
            && s[o.id].txTo == Some(2) && s[y].body.txFrom == Some(3)
            && Temporal.BelievedAt(s[x], 4) && Temporal.BelievedAt(s[y], 4)
  {
    var c0 := Call(who, 1, Create(FactAsserted, o), true);
    var c1, c2 := SupersedeCall(who, 2, o.id, x, v), SupersedeCall(who, 3, o.id, y, v);
    var seen := map[o.id := o];
    RunSix(h, Check(0, c0, map[]), Commit(0), Check(0, c1, seen), Check(1, c2, seen), Commit(0), Commit(1));
    AssertFirst(h, o, who);
    var s1 := Next(h, Next(h, START, Check(0, c0, map[])), Commit(0));
    CheckBoth(h, s1, o, who, x, y, v);
    CommitBoth(h, Next(h, Next(h, s1, Check(0, c1, seen)), Check(1, c2, seen)), o, c1, Replacement(o, x, 2, v, None),
               c2, Replacement(o, y, 3, v, None));
  }

  /** What committing a replacement does, whatever happened to the replaced fact since the check. */
  lemma ReplaceObjects(objs: Objects, c: Call, f: Id, r: Obj)
    requires Keyed(objs) && IsFact(objs, f) && r.id !in objs
    requires InScope(objs[f], c.who.tenant, c.who.namespace) && InScope(r, c.who.tenant, c.who.namespace)
    ensures Transacted(objs, Replace(c, f, None, r)) ==
            Applied(objs[f := Perform(objs[f], CloseFact(Some(c.ts), Superseded))][r.id := r], true)
  {
    var es := Replace(c, f, None, r);
    var closed := objs[f := Perform(objs[f], CloseFact(Some(c.ts), Superseded))];
    SingleEdit(objs, es[0]);
    SingleEdit(closed, es[1]);
    assert es[1..] == [es[1]];
    SingleTransacted(closed, es[1]);
  }
}
