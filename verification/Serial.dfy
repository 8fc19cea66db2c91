/** Calls served one at a time, each checked and committed before the next, on a clock that does not run
    backwards: lineages tile transaction time. */
module Serial {
  import opened Model
  import opened Projection
  import opened Ledger
  import opened Store
  import opened Operations
  import opened Live
  import opened Runs
  import opened Lineage
  import opened FactBeliefs

  function Serve(h: Hash, s: System, c: Call): System {
    Next(h, Next(h, s, Check(0, c, s.objects)), Commit(0))
  }

  function Served(h: Hash, calls: seq<Call>): System
    decreases |calls|
  {
    if calls == [] then START else Serve(h, Served(h, calls[..|calls| - 1]), calls[|calls| - 1])
  }

  predicate ClockOrdered(calls: seq<Call>) {
    forall i, j :: 0 <= i < j < |calls| ==> calls[i].ts <= calls[j].ts
  }

  /** The clock after a run. */
  function Clock(calls: seq<Call>): Time {
    if calls == [] then 0 else calls[|calls| - 1].ts
  }

  ghost predicate Serene(h: Hash, s: System, now: Time) {
    && Invariant(h, s) && s.pending == map[]
    && Dated(s.objects)
    && Coherence(BeliefsOf(s.objects), now)
    && AllInLineages(BeliefsOf(s.objects))
  }

  /** The call passes its check and its events commit. */
  ghost predicate Accepted(s: System, c: Call) {
    && Fresh(s.used, c.request) && Guard(s.objects, c)
    && Transacted(s.objects, Plan(s.objects, c)).ok
  }

  lemma CommitOnly(h: Hash, s: System, es: seq<Event>)
    requires Invariant(h, s) && s.pending == map[0 := es]
    ensures var later, a := Next(h, s, Commit(0)), Transacted(s.objects, es);
            && Invariant(h, later) && later.pending == map[]
            && later.ledger == (if a.ok then Extended(h, s.ledger, es) else s.ledger)
            && later.objects == (if a.ok then a.objects else s.objects)
            && later.used == s.used
  {
    CommitInvariant(h, s, 0);
    assert s.pending - {0} == map[];
  }

  /** What serving one call does to the system. */
  lemma ServeInvariant(h: Hash, s: System, c: Call)
    requires Invariant(h, s) && s.pending == map[]
    ensures var later := Serve(h, s, c);
            && Invariant(h, later) && later.pending == map[]
            && (!Accepted(s, c) ==> later.ledger == s.ledger && later.objects == s.objects)
            && (Accepted(s, c) ==> later.ledger == Extended(h, s.ledger, Plan(s.objects, c)) &&
                                   later.objects == Transacted(s.objects, Plan(s.objects, c)).objects &&
                                   later.used == s.used + NewIds(c.request))
  {
    if Fresh(s.used, c.request) && Guard(s.objects, c) {
      ItselfEvolves(s.objects);
      CheckKeeps(h, s, 0, c, s.objects);
      CommitOnly(h, Next(h, s, Check(0, c, s.objects)), Plan(s.objects, c));
    }
  }

  /** Serving a call of one event that applies. */
  lemma ServeOne(h: Hash, s: System, c: Call)
    requires Invariant(h, s) && s.pending == map[] && Fresh(s.used, c.request) && Guard(s.objects, c)
    requires |Plan(s.objects, c)| == 1 && Apply(s.objects, Plan(s.objects, c)[0]).ok
    ensures var later, e := Serve(h, s, c), Plan(s.objects, c)[0];
            && Invariant(h, later) && later.pending == map[] && later.objects == Apply(s.objects, e).objects
            && later.ledger == s.ledger + [Seal(h, |s.ledger| + 1, e, Head(s.ledger))]
            && later.used == s.used + NewIds(c.request)
  {
    var e := Plan(s.objects, c)[0];
    ServeInvariant(h, s, c);
    assert Plan(s.objects, c) == [e];
    SingleTransacted(s.objects, e);
    assert [e][1..] == [];
  }

  lemma ServePut(h: Hash, s: System, c: Call, o: Obj)
    requires Invariant(h, s) && s.pending == map[] && Fresh(s.used, c.request) && Guard(s.objects, c)
    requires |Plan(s.objects, c)| == 1 && Plan(s.objects, c)[0].payload == Whole(o)
    requires Readable(Plan(s.objects, c)[0].op, Whole(o)) && InScope(o, c.who.tenant, c.who.namespace)
    ensures var later, e := Serve(h, s, c), Plan(s.objects, c)[0];
            && Invariant(h, later) && later.pending == map[] && later.objects == s.objects[o.id := o]
            && later.ledger == s.ledger + [Seal(h, |s.ledger| + 1, e, Head(s.ledger))]
            && later.used == s.used + NewIds(c.request)
  {
    SingleEdit(s.objects, Plan(s.objects, c)[0]);
    ServeOne(h, s, c);
  }

  /** Serving a call whose one event is known. */
  lemma ServeEvent(h: Hash, s: System, c: Call, e: Event)
    requires Invariant(h, s) && s.pending == map[] && Fresh(s.used, c.request) && Guard(s.objects, c)
    requires Plan(s.objects, c) == [e] && Apply(s.objects, e).ok
    ensures var later := Serve(h, s, c);
            && Invariant(h, later) && later.pending == map[] && later.objects == Apply(s.objects, e).objects
            && later.ledger == s.ledger + [Seal(h, |s.ledger| + 1, e, Head(s.ledger))]
            && later.used == s.used + NewIds(c.request)
  {
    ServeOne(h, s, c);
  }

  lemma ServedNext(h: Hash, calls: seq<Call>, c: Call)
    ensures Served(h, calls + [c]) == Serve(h, Served(h, calls), c)
  {
    assert (calls + [c])[..|calls|] == calls;
  }

  lemma OneMore(calls: seq<Call>, c: Call)
    ensures |calls| == 0 ==> calls + [c] == [c]
    ensures |calls| == 1 ==> calls + [c] == [calls[0], c]
    ensures |calls| == 2 ==> calls + [c] == [calls[0], calls[1], c]
  {
  }

  lemma ServedOne(h: Hash, c: Call)
    ensures Served(h, [c]) == Serve(h, START, c)
  {
    OneMore([], c);
    ServedNext(h, [], c);
  }

  lemma ServedTwo(h: Hash, c: Call, d: Call)
    ensures Served(h, [c, d]) == Serve(h, Served(h, [c]), d)
  {
    OneMore([c], d);
    ServedNext(h, [c], d);
  }

  lemma ServedThree(h: Hash, c: Call, d: Call, e: Call)
    ensures Served(h, [c, d]) == Serve(h, Serve(h, START, c), d)
    ensures Served(h, [c, d, e]) == Serve(h, Serve(h, Serve(h, START, c), d), e)
  {
    ServedOne(h, c);
    ServedTwo(h, c, d);
    OneMore([c, d], e);
    ServedNext(h, [c, d], e);
  }

  lemma CallCoheres(objs: Objects, c: Call, now: Time)
    requires Tidy(objs) && Dated(objs) && Guard(objs, c) && Prepared(objs, Plan(objs, c)) && now <= c.ts
    requires Transacted(objs, Plan(objs, c)).ok
    requires Coherence(BeliefsOf(objs), now) && AllInLineages(BeliefsOf(objs))
    ensures var later := Transacted(objs, Plan(objs, c)).objects;
            Dated(later) && Coherence(BeliefsOf(later), c.ts) && AllInLineages(BeliefsOf(later))
  {
    PlanIsPlanned(objs, c);
    CommitBeliefs(objs, Plan(objs, c));
    CommitCoheres(objs, Plan(objs, c), now);
    DatedStays(objs, Plan(objs, c));
  }

  /** A call that is committed as soon as it was checked finds the fact it replaces still open. */
  lemma ServeKeeps(h: Hash, s: System, c: Call, now: Time)
    requires Serene(h, s, now) && now <= c.ts
    ensures Serene(h, Serve(h, s, c), c.ts)
  {
    ServeInvariant(h, s, c);
    if Accepted(s, c) {
      ItselfEvolves(s.objects);
      CheckedPlan(h, s, c, s.objects);
      CallCoheres(s.objects, c, now);
    } else {
      CoherenceLater(BeliefsOf(s.objects), now, c.ts);
    }
  }

  lemma StartSerene(h: Hash, now: Time)
    ensures Serene(h, START, now)
  {
    assert BeliefsOf(map[]) == map[];
  }

  lemma {:induction false} ServedSerene(h: Hash, calls: seq<Call>)
    requires ClockOrdered(calls)
    ensures Serene(h, Served(h, calls), Clock(calls))
    decreases |calls|
  {
    if calls == [] {
      StartSerene(h, 0);
    } else {
      var front, last := calls[..|calls| - 1], calls[|calls| - 1];
      if front == [] {
        StartSerene(h, last.ts);
        ServeKeeps(h, START, last, last.ts);
      } else {
        ServedSerene(h, front);
        ServeKeeps(h, Served(h, front), last, Clock(front));
      }
    }
  }

  /** Lineages tile transaction time. In every serial run each fact lies in a lineage in which every
      superseded fact has exactly one successor, which begins at the instant the fact ends: from the root's
      beginning on exactly one fact of the lineage is believed at every instant, for ever or until its last
      fact is retracted, and none at any other instant. */
  lemma LineagesTile(h: Hash, calls: seq<Call>, id: Id)
    requires ClockOrdered(calls) && IsFact(Served(h, calls).objects, id)
    ensures var objs := Served(h, calls).objects;
            && Coherence(BeliefsOf(objs), Clock(calls))
            && exists c :: IsLineage(BeliefsOf(objs), c) && id in c && TilesTime(objs, c)
  {
    ServedSerene(h, calls);
    FactTiles(Served(h, calls).objects, id, Clock(calls));
  }

  /******* The ledgers of serial runs *******/

  lemma PlanStamped(objs: Objects, c: Call)
    requires Guard(objs, c)
    ensures forall i :: 0 <= i < |Plan(objs, c)| ==> Plan(objs, c)[i].ts == c.ts
  {
  }

  /** `longer` continues `ledger` with records stamped `ts`. */
  predicate StampedOnto(ledger: seq<Record>, longer: seq<Record>, ts: Time) {
    ledger <= longer && forall i :: |ledger| <= i < |longer| ==> longer[i].event.ts == ts
  }

  lemma ExtendedStamps(h: Hash, ledger: seq<Record>, es: seq<Event>, ts: Time)
    requires Chain(h, ledger) && forall i :: 0 <= i < |es| ==> es[i].ts == ts
    ensures StampedOnto(ledger, Extended(h, ledger, es), ts)
  {
    ExtendedIsReplayed(h, ledger, es);
    var longer := Extended(h, ledger, es);
    forall i | |ledger| <= i < |longer| ensures longer[i].event.ts == ts {
      assert longer[|ledger| + (i - |ledger|)].event == es[i - |ledger|];
    }
  }

  /** A call served on its own adds records stamped with its clock. */
  lemma ServeStamps(h: Hash, s: System, c: Call)
    requires Chain(h, s.ledger) && s.pending == map[]
    ensures StampedOnto(s.ledger, Serve(h, s, c).ledger, c.ts)
  {
    if Fresh(s.used, c.request) && Guard(s.objects, c) {
      PlanStamped(s.objects, c);
      ExtendedStamps(h, s.ledger, Plan(s.objects, c), c.ts);
    }
  }

  predicate StampedUpTo(ledger: seq<Record>, clock: Time) {
    forall i :: 0 <= i < |ledger| ==> ledger[i].event.ts <= clock
  }

  lemma OrderedOnto(ledger: seq<Record>, longer: seq<Record>, was: Time, ts: Time)
    requires NonDecreasing(ledger) && StampedUpTo(ledger, was) && (ledger == [] || was <= ts)
    requires StampedOnto(ledger, longer, ts)
    ensures NonDecreasing(longer) && StampedUpTo(longer, ts)
  {
    assert forall i :: 0 <= i < |ledger| ==> longer[i] == ledger[i];
  }

  /** The ledger of a serial run on an ordered clock is live and its timestamps do not decrease. */
  lemma {:induction false} ServedLedgerIsOrdered(h: Hash, calls: seq<Call>)
    requires ClockOrdered(calls)
    ensures var ledger := Served(h, calls).ledger;
            LiveLedger(ledger) && NonDecreasing(ledger) && StampedUpTo(ledger, Clock(calls))
    decreases |calls|
  {
    ServedSerene(h, calls);
    if calls != [] {
      var front := calls[..|calls| - 1];
      ServedLedgerIsOrdered(h, front);
      ServedSerene(h, front);
      ServeStamps(h, Served(h, front), calls[|calls| - 1]);
      OrderedOnto(Served(h, front).ledger, Served(h, calls).ledger, Clock(front), calls[|calls| - 1].ts);
    }
  }
}
