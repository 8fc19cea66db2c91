/** The engine on its store, with the two indexes that share the store's transactions: its one mutation path,
    its rebuilds and its imports, whatever statements of the indexes fail on the way. */
module IndexedEngine {
  import opened Model
  import opened Projection
  import opened Ledger
  import opened Store
  import opened IndexHealth
  import LexicalIndex
  import ProvenanceIndex
  import Text

  type ProvLife = Life<seq<Record>, ProvenanceIndex.Rows>
  type ProvStep = Step<seq<Record>, ProvenanceIndex.Rows>
  type LexLife = Life<Objects, LexicalIndex.Tables>
  type LexStep = Step<Objects, LexicalIndex.Tables>

  ghost function ProvExact(): (seq<Record>, ProvenanceIndex.Rows) -> bool {
    (ledger: seq<Record>, rows: ProvenanceIndex.Rows) => ProvenanceIndex.Exact(ledger, rows)
  }

  ghost function LexExact(): (Objects, LexicalIndex.Tables) -> bool {
    (objs: Objects, t: LexicalIndex.Tables) => LexicalIndex.Exact(objs, t)
  }

  function Born<T, R>(truth: T, rows: R, health: Health): Life<T, R> {
    Life(Image(truth, rows, health, true, false), None, false)
  }

  /** The index lived through these steps, each of them faithful. */
  ghost predicate Lived<T, R>(exact: (T, R) -> bool, start: Life<T, R>, steps: seq<Step<T, R>>, s: Life<T, R>) {
    Sound(exact, start) && AllFaithful(exact, start, steps) && Run(start, steps) == s
  }

  /** Nothing happened to the open transaction or to the doubt about the flag. */
  predicate Steady<T(==), R(==)>(a: Life<T, R>, b: Life<T, R>) {
    b.open == a.open && b.restored == a.restored && b.now.doubtful == a.now.doubtful
  }

  /** Is the object written at all? A closed fact and a closed claim are not closed again. */
  predicate Rewrites(o: Obj, c: Change) {
    match c
    case CloseFact(_, _) => o.txTo.None?
    case CloseClaim(_, _) => o.status == Open
    case _ => true
  }

  class Engine {
    const store: MemoryStore
    const h: Hash
    const prov: ProvenanceIndex.Index
    const lex: LexicalIndex.Index
    var savedRows: ProvenanceIndex.Rows
    var savedTables: LexicalIndex.Tables
    ghost const provStart: ProvLife
    ghost const lexStart: LexLife
    ghost var provSteps: seq<ProvStep>
    ghost var lexSteps: seq<LexStep>
    ghost var provLife: ProvLife
    ghost var lexLife: LexLife

    /** The provenance index is where its life has led it, and what a rollback puts back is what its open
        transaction found. */
    ghost predicate ProvKept()
      reads this, store, prov
    {
      && WellNested(store.View())
      && Lived(ProvExact(), provStart, provSteps, provLife)
      && provLife.now.truth == store.ledger && provLife.now.rows == prov.rows && provLife.now.health == prov.state
      && prov.state != Rebuilding
      && (provLife.open.Some? <==> store.depth > 0)
      && (provLife.open.Some? ==>
            provLife.open.value.truth == store.ledger[..store.snapLedger] && provLife.open.value.rows == savedRows)
    }

    ghost predicate LexKept()
      reads this, store, lex
    {
      && WellNested(store.View())
      && Lived(LexExact(), lexStart, lexSteps, lexLife)
      && lexLife.now.truth == store.objects && lexLife.now.rows == lex.tables && lexLife.now.health == lex.state
      && lex.state != Rebuilding && LexicalIndex.GivesUnused(lex.next)
      && (lexLife.open.Some? <==> store.depth > 0)
      && (lexLife.open.Some? ==>
            lexLife.open.value.truth == store.snapObjects.value && lexLife.open.value.rows == savedTables)
    }

    ghost predicate Valid()
      reads this, store, prov, lex
    {
      && ProvKept() && LexKept()
      && Chain(h, store.ledger) && Keyed(store.objects) && (store.depth > 0 ==> Keyed(store.snapObjects.value))
    }

    /** In every state of every run a healthy index is exact, unless its flag is doubtful. */
    lemma HealthyAreExact()
      requires Valid()
      ensures prov.state == Healthy && !provLife.now.doubtful ==> ProvenanceIndex.Exact(store.ledger, prov.rows)
      ensures lex.state == Healthy && !lexLife.now.doubtful ==> LexicalIndex.Exact(store.objects, lex.tables)
    {
      HealthyIsExact(ProvExact(), provStart, provSteps);
      HealthyIsExact(LexExact(), lexStart, lexSteps);
    }

    /** After careful runs a healthy index is exact outside transactions: when flags were set back only outside of
        them, and only if no statement had failed since the rows were last rebuilt or started over. */
    lemma CarefulAreExact()
      requires Valid() && store.depth == 0
      ensures Careful(provStart, provSteps) && provStart.open.None? && !provStart.now.doubtful && prov.state == Healthy
              ==> ProvenanceIndex.Exact(store.ledger, prov.rows)
      ensures Careful(lexStart, lexSteps) && lexStart.open.None? && !lexStart.now.doubtful && lex.state == Healthy
              ==> LexicalIndex.Exact(store.objects, lex.tables)
    {
      HealthyAreExact();
      if Careful(provStart, provSteps) && provStart.open.None? && !provStart.now.doubtful {
        CarefulIsCertain(provStart, provSteps);
      }
      if Careful(lexStart, lexSteps) && lexStart.open.None? && !lexStart.now.doubtful {
        CarefulIsCertain(lexStart, lexSteps);
      }
    }

    constructor (store: MemoryStore, h: Hash, prov: ProvenanceIndex.Index, lex: LexicalIndex.Index)
      requires store.View() == EMPTY && prov.rows == {} && lex.tables == LexicalIndex.NO_ROWS
      requires (prov.state == Healthy || prov.state == Unavailable) &&
               (lex.state == Healthy || lex.state == Unavailable)
      requires LexicalIndex.GivesUnused(lex.next)
      ensures Valid() && this.store == store && this.h == h && this.prov == prov && this.lex == lex
      ensures !provLife.now.doubtful && !lexLife.now.doubtful
    {
      this.store, this.h, this.prov, this.lex := store, h, prov, lex;
      savedRows, savedTables := {}, LexicalIndex.NO_ROWS;
      provStart, provSteps, provLife := Born([], {}, prov.state), [], Born([], {}, prov.state);
      lexStart, lexSteps := Born(map[], LexicalIndex.NO_ROWS, lex.state), [];
      lexLife := Born(map[], LexicalIndex.NO_ROWS, lex.state);
    }

    /******* Noting what happened to the indexes *******/

    ghost method NoteProv(step: ProvStep)
      requires Lived(ProvExact(), provStart, provSteps, provLife) && Faithful(ProvExact(), provLife, step)
      modifies this`provSteps, this`provLife
      ensures Lived(ProvExact(), provStart, provSteps, provLife) && provLife == Next(old(provLife), step)
    {
      GoesOn(ProvExact(), provStart, provSteps, step);
      provSteps, provLife := provSteps + [step], Next(provLife, step);
    }

    ghost method NoteLex(step: LexStep)
      requires Lived(LexExact(), lexStart, lexSteps, lexLife) && Faithful(LexExact(), lexLife, step)
      modifies this`lexSteps, this`lexLife
      ensures Lived(LexExact(), lexStart, lexSteps, lexLife) && lexLife == Next(old(lexLife), step)
    {
      GoesOn(LexExact(), lexStart, lexSteps, step);
      lexSteps, lexLife := lexSteps + [step], Next(lexLife, step);
    }

    /** A query found a healthy index broken, or found nothing. */
    ghost method NoteQuery(was: Health)
      requires Lived(ProvExact(), provStart, provSteps, provLife) && provLife.now.health == was
      requires prov.state == was || (was == Healthy && prov.state == Degraded)
      modifies this`provSteps, this`provLife
      ensures Lived(ProvExact(), provStart, provSteps, provLife) && Steady(old(provLife), provLife)
      ensures provLife.now == old(provLife.now).(health := prov.state)
    {
      if prov.state != was {
        NoteProv(Degrade);
      }
    }

    /** A record was appended and indexed. */
    ghost method NoteRecord(before: ProvLife, r: Record)
      requires Lived(ProvExact(), provStart, provSteps, provLife) && provLife == before
      requires before.now.health != Rebuilding
      requires forall i :: 0 <= i < |before.now.truth| ==> before.now.truth[i].seqno != r.seqno
      requires ProvenanceIndex.Recording(before.now.health, before.now.rows, r.seqno, ProvenanceIndex.Leaves(r),
                                         prov.state, prov.rows)
      modifies this`provSteps, this`provLife
      ensures Lived(ProvExact(), provStart, provSteps, provLife) && Steady(before, provLife)
      ensures provLife.now.truth == before.now.truth + [r]
      ensures provLife.now.rows == prov.rows && provLife.now.health == prov.state && prov.state != Rebuilding
    {
      var m := before.now;
      var kept := m.health != Unavailable && prov.state == m.health &&
        prov.rows == ProvenanceIndex.Recorded(m.rows, r.seqno, ProvenanceIndex.Leaves(r));
      if ProvenanceIndex.Exact(m.truth, m.rows) {
        ProvenanceIndex.RecordedIsExact(m.truth, m.rows, r);
      }
      NoteProv(Write(m.truth + [r], prov.rows, !kept));
    }

    /******* Transactions *******/

    method Enter()
      requires Valid()
      modifies this, store
      ensures Valid() && store.View() == Entered(old(store.View()))
      ensures provLife == if old(store.depth) == 0 then Next(old(provLife), Begin) else old(provLife)
      ensures lexLife == if old(store.depth) == 0 then Next(old(lexLife), Begin) else old(lexLife)
    {
      if store.depth == 0 {
        savedRows, savedTables := prov.rows, lex.tables;
        NoteProv(Begin);
        NoteLex(Begin);
      }
      store.Enter();
      assert store.ledger[..|store.ledger|] == store.ledger;
    }

    /** Only the outermost transaction restores, and only when it raised; the flags stay as they are. */
    method Leave(raised: bool)
      requires Valid() && store.depth > 0
      modifies this, store, prov, lex
      ensures Valid() && store.View() == Left(old(store.View()), raised)
      ensures prov.state == old(prov.state) && lex.state == old(lex.state)
      ensures provLife == if old(store.depth) == 1 then Next(old(provLife), End(raised)) else old(provLife)
      ensures lexLife == if old(store.depth) == 1 then Next(old(lexLife), End(raised)) else old(lexLife)
    {
      if store.depth == 1 {
        if raised {
          prov.rows, lex.tables := savedRows, savedTables;
          PrefixIsChain(h, store.ledger, store.snapLedger);
        }
        NoteProv(End(raised));
        NoteLex(End(raised));
      }
      store.Leave(raised);
    }

    /******* The one mutation path *******/

    /** Writes an object and re-indexes it; the write stands whatever the index does. */
    method Persist(o: Obj)
      requires LexKept()
      modifies store, lex, this`lexSteps, this`lexLife
      ensures LexKept() && Steady(old(lexLife), lexLife)
      ensures store.View() == old(store.View()).(objects := old(store.objects)[o.id := o])
    {
      store.PutObject(o);
      ghost var t := lex.tables;
      var failed := lex.Reindex(o);
      if lex.state != Unavailable && !failed && LexicalIndex.Exact(old(store.objects), t) {
        LexicalIndex.ReindexingIsExact(lex.next, old(store.objects), t, o, lex.tables);
      }
      NoteLex(Write(store.objects, lex.tables, failed || lex.state == Unavailable));
    }

    method Change(id: Id, change: Change)
      requires LexKept() && Keyed(store.objects) && id in store.objects
      modifies store, lex, this`lexSteps, this`lexLife
      ensures LexKept() && Steady(old(lexLife), lexLife)
      ensures store.View() ==
              old(store.View()).(objects := old(store.objects)[id := Perform(old(store.objects)[id], change)])
    {
      if Rewrites(store.objects[id], change) {
        Persist(Perform(store.objects[id], change));
      } else {
        assert store.objects[id := store.objects[id]] == store.objects;
      }
    }

    /** Projects an event edit by edit, stopping at the first integrity error. */
    method Project(e: Event) returns (ok: bool)
      requires LexKept() && Keyed(store.objects)
      modifies store, lex, this`lexSteps, this`lexLife
      ensures LexKept() && Keyed(store.objects) && Steady(old(lexLife), lexLife)
      ensures ok == Apply(old(store.objects), e).ok
      ensures store.View() == old(store.View()).(objects := Apply(old(store.objects), e).objects)
    {
      if !Readable(e.op, e.payload) {
        return false;
      }
      var edits := Edits(e);
      for i := 0 to |edits|
        invariant LexKept() && Keyed(store.objects) && Steady(old(lexLife), lexLife)
        invariant ApplyEdits(old(store.objects), e.tenant, e.namespace, edits) ==
                  ApplyEdits(store.objects, e.tenant, e.namespace, edits[i..])
        invariant store.View() == old(store.View()).(objects := store.objects)
      {
        assert edits[i..][1..] == edits[i + 1..];
        match edits[i] {
          case Put(obj) =>
            if !InScope(obj, e.tenant, e.namespace) { return false; }
            Persist(obj);
          case Modify(id, change) =>
            if id !in store.objects || !InScope(store.objects[id], e.tenant, e.namespace) { return false; }
            Change(id, change);
          case ModifyIfPresent(id, change) =>
            if id in store.objects {
              if !InScope(store.objects[id], e.tenant, e.namespace) { return false; }
              Change(id, change);
            }
        }
      }
      return true;
    }

    /** Indexes a sealed record's references, then projects it. */
    method ApplyRecord(r: Record) returns (ok: bool)
      requires LexKept() && Keyed(store.objects)
      modifies store, lex, prov, this`lexSteps, this`lexLife
      ensures LexKept() && Keyed(store.objects) && Steady(old(lexLife), lexLife)
      ensures ok == Apply(old(store.objects), r.event).ok
      ensures store.View() == old(store.View()).(objects := Apply(old(store.objects), r.event).objects)
      ensures ProvenanceIndex.Recording(old(prov.state), old(prov.rows), r.seqno, ProvenanceIndex.Leaves(r),
                                        prov.state, prov.rows)
    {
      prov.Record(r.seqno, r.event.payload);
      ok := Project(r.event);
    }

    /** Seals an event onto the ledger. */
    method Append(e: Event) returns (r: Record)
      requires Chain(h, store.ledger) && WellNested(store.View())
      modifies store
      ensures r == Seal(h, |old(store.ledger)| + 1, e, Head(old(store.ledger))) && r.event == e
      ensures store.View() == old(store.View()).(ledger := old(store.ledger) + [r])
      ensures Chain(h, store.ledger) && WellNested(store.View())
      ensures store.depth > 0 ==> store.ledger[..store.snapLedger] == old(store.ledger)[..store.snapLedger]
      ensures forall i :: 0 <= i < |old(store.ledger)| ==> old(store.ledger)[i].seqno != r.seqno
    {
      ChainNumbers(h, store.ledger);
      var prev, seqno := store.HeadLink();
      r := Seal(h, seqno, e, prev);
      AppendKeepsChain(h, store.ledger, e);
      store.PersistRecord(r);
    }

    /** The only mutation path: append the sealed event, then project it. When the projection
        raises, the record stays appended and the exception travels to the transaction. */
    method Emit(e: Event) returns (ok: bool)
      requires Valid()
      modifies this, store, prov, lex
      ensures Valid() && Steady(old(provLife), provLife) && Steady(old(lexLife), lexLife)
      ensures Emitted(h, old(store.View()), e) == (store.View(), ok)
      ensures store.ledger == old(store.ledger) + [Seal(h, |old(store.ledger)| + 1, e, Head(old(store.ledger)))]
    {
      ChainNumbers(h, store.ledger);
      var r := Append(e);
      ok := ApplyRecord(r);
      NoteRecord(provLife, r);
    }

    /** Emits events one by one inside an open transaction, stopping at the first that raises. */
    method EmitAll(events: seq<Event>) returns (ok: bool)
      requires Valid()
      modifies this, store, prov, lex
      ensures Valid() && Steady(old(provLife), provLife) && Steady(old(lexLife), lexLife)
      ensures ok == Transacted(old(store.objects), events).ok
      ensures ok ==> store.ledger == Extended(h, old(store.ledger), events)
      ensures old(store.ledger) <= store.ledger
      ensures store.View() == old(store.View()).(ledger := store.ledger,
                objects := Transacted(old(store.objects), events).objects)
    {
      for i := 0 to |events|
        invariant Valid() && Steady(old(provLife), provLife) && Steady(old(lexLife), lexLife)
        invariant store.View() == old(store.View()).(ledger := store.ledger, objects := store.objects)
        invariant old(store.ledger) <= store.ledger
        invariant Extended(h, old(store.ledger), events) == Extended(h, store.ledger, events[i..])
        invariant Transacted(old(store.objects), events) == Transacted(store.objects, events[i..])
      {
        assert events[i..][1..] == events[i + 1..];
        ok := Emit(events[i]);
        if !ok {
          return;
        }
      }
      ok := true;
    }

    /** One public operation: all its events in one transaction, or none of them. */
    method Commit(events: seq<Event>) returns (ok: bool)
      requires Valid() && store.depth == 0
      modifies this, store, prov, lex
      ensures Valid() && store.depth == 0
      ensures ok == Transacted(old(store.objects), events).ok
      ensures ok ==> store.ledger == Extended(h, old(store.ledger), events)
      ensures ok ==> store.objects == Transacted(old(store.objects), events).objects
      ensures !ok ==> store.ledger == old(store.ledger) && store.objects == old(store.objects)
      ensures provLife.now.doubtful == old(provLife.now.doubtful) && lexLife.now.doubtful == old(lexLife.now.doubtful)
    {
      Enter();
      ok := EmitAll(events);
      assert store.ledger[..|old(store.ledger)|] == old(store.ledger);
      Leave(!ok);
    }

    /******* Rebuilding *******/

    /** Either a replay onto no rows indexed every record without a failing statement, or the flag got worse; `stale`
        rows that the replay found may also have been left in place. */
    ghost predicate Refilled(records: seq<Record>, was: Health, stale: bool, clean: bool)
      reads prov
    {
      if clean then prov.state == was && was != Unavailable && ProvenanceIndex.Exact(records, prov.rows)
      else prov.state == Worse(was) || (stale && prov.state == was)
    }

    /** One more record of a replay. */
    ghost method Refill(records: seq<Record>, n: nat, was: Health, stale: bool, before: ProvenanceIndex.Rows,
                        state: Health, clean: bool) returns (still: bool)
      requires n < |records| && forall i :: 0 <= i < n ==> records[i].seqno != records[n].seqno
      requires if clean then state == was && was != Unavailable && ProvenanceIndex.Exact(records[..n], before)
               else state == Worse(was) || (stale && state == was)
      requires ProvenanceIndex.Recording(state, before, records[n].seqno, ProvenanceIndex.Leaves(records[n]),
                                         prov.state, prov.rows)
      ensures Refilled(records[..n + 1], was, stale, still)
    {
      var r := records[n];
      still := clean && prov.state == state &&
        prov.rows == ProvenanceIndex.Recorded(before, r.seqno, ProvenanceIndex.Leaves(r));
      if still {
        ProvenanceIndex.RecordedIsExact(records[..n], before, r);
        assert records[..n] + [r] == records[..n + 1];
      }
    }

    /** Projects the next record of a replay. */
    method ReplayNext(records: seq<Record>, n: nat, ghost was: Health, ghost stale: bool, ghost clean: bool)
      returns (ok: bool, ghost still: bool)
      requires LexKept() && Keyed(store.objects) && n < |records|
      requires forall i :: 0 <= i < n ==> records[i].seqno != records[n].seqno
      requires Replay(records[..n]) == Some(store.objects) && Refilled(records[..n], was, stale, clean)
      modifies store, lex, prov, this`lexSteps, this`lexLife
      ensures LexKept() && Keyed(store.objects) && Steady(old(lexLife), lexLife)
      ensures store.View() == old(store.View()).(objects := store.objects)
      ensures if ok then Replay(records[..n + 1]) == Some(store.objects) else Replay(records).None?
      ensures Refilled(records[..n + 1], was, stale, still)
    {
      assert records[..n + 1] == records[..n] + [records[n]];
      ReplaySnoc(records[..n], records[n]);
      ghost var rows, state := prov.rows, prov.state;
      ok := ApplyRecord(records[n]);
      still := Refill(records, n, was, stale, rows, state, clean);
      if !ok {
        NoReplay(records, n + 1);
      }
    }

    /** Projects records one by one inside an open transaction, stopping at the first that does not apply. */
    method ProjectAll(records: seq<Record>) returns (ok: bool, count: nat, ghost clean: bool)
      requires LexKept() && store.objects == map[] && Chain(h, records)
      modifies store, lex, prov, this`lexSteps, this`lexLife
      ensures LexKept() && Keyed(store.objects) && Steady(old(lexLife), lexLife)
      ensures store.View() == old(store.View()).(objects := store.objects)
      ensures ok == Replay(records).Some?
      ensures ok ==> count == |records| && Some(store.objects) == Replay(records)
      ensures ok ==> Refilled(records, old(prov.state), old(prov.rows) != {}, clean)
      ensures prov.state == old(prov.state) || prov.state == Worse(old(prov.state))
    {
      ChainNumbers(h, records);
      count := 0;
      clean := prov.state != Unavailable && prov.rows == {};
      assert ProvenanceIndex.RowsOf(records[..0]) == {};
      for i := 0 to |records|
        invariant count == i && LexKept() && Keyed(store.objects) && Steady(old(lexLife), lexLife)
        invariant store.View() == old(store.View()).(objects := store.objects)
        invariant Replay(records[..i]) == Some(store.objects)
        invariant Refilled(records[..i], old(prov.state), old(prov.rows) != {}, clean)
      {
        ok, clean := ReplayNext(records, i, old(prov.state), old(prov.rows) != {}, clean);
        if !ok {
          return;
        }
        count := count + 1;
      }
      assert records[..|records|] == records;
      ok := true;
    }

    /** Empties the objects and both indexes' rows; clearing an index may raise on the way. */
    method ClearAll() returns (ok: bool)
      requires LexKept()
      modifies store, lex, prov, this`lexSteps, this`lexLife
      ensures LexKept() && store.View() == old(store.View()).(objects := map[])
      ensures prov.state == old(prov.state) && (ok ==> prov.rows == {} || prov.state == Unavailable)
      ensures lexLife.open == old(lexLife.open) && lexLife.restored == old(lexLife.restored)
      ensures ok ==> lexLife.now.doubtful == old(lexLife.now.doubtful)
      ensures prov.state == Unavailable && lex.state == Unavailable ==> ok
    {
      store.ClearProjection();
      ok := lex.Clear();
      if !ok {
        NoteLex(Break(map[], lex.tables));
        return;
      }
      if lex.state == Unavailable {
        NoteLex(Write(map[], lex.tables, true));
      } else {
        NoteLex(Reset(map[], lex.tables));
      }
      ok := prov.Clear();
    }

    /** What a replay did to the provenance index, told to its life. */
    ghost method NoteReplay(was: ProvLife, records: seq<Record>, stale: bool, ok: bool, clean: bool)
      requires Lived(ProvExact(), provStart, provSteps, provLife) && provLife == was && was.now.health != Rebuilding
      requires ok ==> Refilled(records, was.now.health, stale, clean)
      requires stale && was.now.health == Healthy ==> was.now.doubtful
      requires prov.state == was.now.health || prov.state == Worse(was.now.health)
      modifies this`provSteps, this`provLife
      ensures Lived(ProvExact(), provStart, provSteps, provLife)
      ensures provLife.now.truth == records && provLife.now.rows == prov.rows && provLife.now.health == prov.state
      ensures provLife.open == was.open && provLife.restored == was.restored
      ensures ok && provLife.now.doubtful ==> was.now.doubtful
    {
      if ok && clean {
        NoteProv(Reset(records, prov.rows));
      } else if ok && prov.state == Worse(was.now.health) {
        NoteProv(Write(records, prov.rows, true));
      } else {
        if prov.state != was.now.health {
          NoteProv(Degrade);
        }
        NoteProv(Break(records, prov.rows));
      }
    }

    /** Clears everything that is projected and replays the ledger. */
    method ReplayLedger() returns (ok: bool, count: nat, ghost cleared: bool, ghost clean: bool, ghost stale: bool)
      requires LexKept() && Chain(h, store.ledger)
      modifies store, lex, prov, this`lexSteps, this`lexLife
      ensures LexKept() && Keyed(store.objects) && store.View() == old(store.View()).(objects := store.objects)
      ensures ok ==> count == |store.ledger| && Some(store.objects) == Replay(store.ledger)
      ensures ok <==> cleared && Replay(store.ledger).Some?
      ensures prov.state == Unavailable && lex.state == Unavailable ==> cleared
      ensures ok ==> Refilled(store.ledger, old(prov.state), stale, clean)
      ensures stale ==> old(prov.state) == Unavailable
      ensures prov.state == old(prov.state) || prov.state == Worse(old(prov.state))
      ensures lexLife.open == old(lexLife.open) && lexLife.restored == old(lexLife.restored)
      ensures ok ==> lexLife.now.doubtful == old(lexLife.now.doubtful)
    {
      count, clean, stale := 0, false, false;
      ok := ClearAll();
      cleared := ok;
      if ok {
        stale := prov.rows != {};
        ok, count, clean := ProjectAll(store.ledger);
      }
    }

    /** The same inside an open transaction, told to the life of the provenance index. */
    method Refresh() returns (ok: bool, count: nat, ghost cleared: bool)
      requires Valid() && store.depth > 0
      modifies this, store, prov, lex
      ensures Valid() && store.View() == old(store.View()).(objects := store.objects)
      ensures ok ==> count == |store.ledger| && Some(store.objects) == Replay(store.ledger)
      ensures ok <==> cleared && Replay(store.ledger).Some?
      ensures prov.state == Unavailable && lex.state == Unavailable ==> cleared
      ensures provLife.open == old(provLife.open) && provLife.restored == old(provLife.restored)
      ensures lexLife.open == old(lexLife.open) && lexLife.restored == old(lexLife.restored)
      ensures ok && provLife.now.doubtful ==> old(provLife.now.doubtful)
      ensures ok ==> lexLife.now.doubtful == old(lexLife.now.doubtful)
    {
      ghost var clean, stale;
      ok, count, cleared, clean, stale := ReplayLedger();
      NoteReplay(provLife, store.ledger, stale, ok, clean);
    }

    /** The same in a transaction of its own, which puts everything back when it is the outermost one and raised. */
    method RefreshAtomically() returns (ok: bool, count: nat, ghost cleared: bool)
      requires Valid()
      modifies this, store, prov, lex
      ensures Valid() && store.depth == old(store.depth) && store.ledger == old(store.ledger)
      ensures ok ==> count == |store.ledger| && Some(store.objects) == Replay(store.ledger)
      ensures ok <==> cleared && Replay(store.ledger).Some?
      ensures prov.state == Unavailable && lex.state == Unavailable ==> cleared
      ensures !ok && store.depth == 0 ==> store.objects == old(store.objects)
      ensures store.depth == 0 && provLife.now.doubtful ==> old(provLife.now.doubtful)
      ensures store.depth == 0 && lexLife.now.doubtful ==> old(lexLife.now.doubtful)
    {
      Enter();
      ok, count, cleared := Refresh();
      assert store.ledger[..|store.ledger|] == store.ledger;
      Leave(!ok);
    }

    /** Sets the flag of the lexical index back when its check finds no fault. */
    method RestoreLex()
      requires Valid()
      modifies this`lexSteps, this`lexLife, lex
      ensures Valid() && lexLife.now.sure == old(lexLife.now.sure)
      ensures lexLife.now.doubtful ==> old(lexLife.now.doubtful) || !lexLife.now.sure
      ensures lex.state == Healthy ==> LexicalIndex.Consistent(store.objects, lex.tables)
    {
      var checked := lex.Verify(store.objects);
      if checked {
        lex.RestoreHealthy();
        NoteLex(Trust);
      } else {
        NoteLex(Degrade);
      }
    }

    method RestoreProv()
      requires Valid()
      modifies this`provSteps, this`provLife, prov
      ensures Valid() && (provLife.now.doubtful ==> old(provLife.now.doubtful))
      ensures prov.state == Healthy ==> ProvenanceIndex.Exact(store.ledger, prov.rows)
    {
      var checked := prov.Verify(store.ledger);
      if checked {
        prov.RestoreHealthy();
        NoteProv(Restore(prov.rows));
      } else {
        NoteProv(Degrade);
      }
    }

    /** Rebuilds the objects and the rows of both indexes from the ledger alone, and sets the flags of indexes that
        pass their check back to healthy; the count of records applied. It succeeds exactly when clearing the indexes
        raised nothing and the ledger replays; else the outermost transaction puts everything back. */
    method RebuildProjection() returns (ok: bool, count: nat, ghost cleared: bool)
      requires Valid()
      modifies this, store, prov, lex
      ensures Valid() && store.depth == old(store.depth) && store.ledger == old(store.ledger)
      ensures ok ==> count == |store.ledger| && Some(store.objects) == Replay(store.ledger)
      ensures ok <==> cleared && Replay(store.ledger).Some?
      ensures prov.state == Unavailable && lex.state == Unavailable ==> cleared
      ensures !ok && store.depth == 0 ==> store.objects == old(store.objects)
      ensures store.depth == 0 && provLife.now.doubtful ==> old(provLife.now.doubtful)
      ensures store.depth == 0 && lexLife.now.doubtful ==> old(lexLife.now.doubtful) || !lexLife.now.sure
      ensures ok && prov.state == Healthy ==> ProvenanceIndex.Exact(store.ledger, prov.rows)
      ensures ok && lex.state == Healthy ==>
                (LexicalIndex.Exact(store.objects, lex.tables) <==>
                 LexicalIndex.Injective(lex.tables) && LexicalIndex.Labelled(store.objects, lex.tables))
    {
      ok, count, cleared := RefreshAtomically();
      if ok {
        RestoreLex();
        LexicalIndex.ExactIffVerified(store.objects, lex.tables);
        RestoreProv();
      }
    }

    method RebuildProv() returns (ok: bool)
      requires Valid()
      modifies this`provSteps, this`provLife, prov
      ensures Valid() && (provLife.now.doubtful ==> old(provLife.now.doubtful))
      ensures ok ==> prov.state == Unavailable || (prov.state == Healthy && !provLife.now.doubtful)
      ensures prov.state == Unavailable <==> old(prov.state) == Unavailable
    {
      ok := prov.Rebuild(store.ledger, store.depth > 0);
      if prov.state != Unavailable {
        NoteProv(if ok then Restore(prov.rows) else Fail(prov.rows));
      }
    }

    method RebuildLex(order: seq<Id>) returns (ok: bool)
      requires Valid() && forall id :: id in order <==> id in store.objects
      modifies this`lexSteps, this`lexLife, lex
      ensures Valid() && (lexLife.now.doubtful ==> old(lexLife.now.doubtful))
      ensures ok ==> lex.state == Unavailable || (lex.state == Healthy && !lexLife.now.doubtful)
    {
      ok := lex.Rebuild(store.objects, order, store.depth > 0);
      if lex.state != Unavailable {
        NoteLex(if ok then Restore(lex.tables) else Fail(lex.tables));
      }
    }

    /** Rebuilds the rows of each index; a failure of the first leaves the second alone. */
    method RebuildIndexes(order: seq<Id>) returns (ok: bool)
      requires Valid() && forall id :: id in order <==> id in store.objects
      modifies this, prov, lex
      ensures Valid()
      ensures ok ==> prov.state == Unavailable || (prov.state == Healthy && !provLife.now.doubtful)
      ensures ok ==> lex.state == Unavailable || (lex.state == Healthy && !lexLife.now.doubtful)
      ensures provLife.now.doubtful ==> old(provLife.now.doubtful)
      ensures lexLife.now.doubtful ==> old(lexLife.now.doubtful)
    {
      ok := RebuildProv();
      if ok {
        ok := RebuildLex(order);
      }
    }

    /** Rebuilding a degraded provenance index inside a transaction that then raises: its old rows come back, and its
        flag stays healthy. */
    method RebuildThenRaise() returns (ok: bool)
      requires Valid() && store.depth == 0 && prov.state == Degraded
      modifies this, store, prov, lex
      ensures Valid() && store.depth == 0 && store.ledger == old(store.ledger) && prov.rows == old(prov.rows)
      ensures ok ==> prov.state == Healthy
      ensures ok && !ProvenanceIndex.Exact(store.ledger, prov.rows) ==> provLife.now.doubtful
      ensures lex.state == old(lex.state)
    {
      Enter();
      ok := RebuildProv();
      Leave(true);
      HealthyAreExact();
    }

    /** Checks both indexes; a healthy one found wrong is degraded. */
    method VerifyIndexes() returns (ok: bool)
      requires Valid()
      modifies this, prov, lex
      ensures Valid()
      ensures ok <==> old(lex.state) != Unavailable && LexicalIndex.Consistent(store.objects, lex.tables) &&
                      old(prov.state) != Unavailable && ProvenanceIndex.Exact(store.ledger, prov.rows)
      ensures provLife.now.doubtful == old(provLife.now.doubtful) && lexLife.now.doubtful == old(lexLife.now.doubtful)
    {
      var lexOk := lex.Verify(store.objects);
      if !lexOk {
        NoteLex(Degrade);
      }
      var provOk := prov.Verify(store.ledger);
      if !provOk {
        NoteProv(Degrade);
      }
      ok := provOk && lexOk;
    }

    /******* Imports *******/

    /** Appends records as they are. */
    method AppendAll(records: seq<Record>)
      requires store.ledger == []
      modifies store
      ensures store.View() == old(store.View()).(ledger := records)
    {
      for i := 0 to |records|
        invariant store.View() == old(store.View()).(ledger := records[..i])
      {
        store.PersistRecord(records[i]);
        assert records[..i + 1] == records[..i] + [records[i]];
      }
      assert records[..|records|] == records;
    }

    /** Appends the records of an import and clears the objects, but not the rows of the indexes. */
    method Unpack(records: seq<Record>)
      requires LexKept() && store.ledger == []
      modifies store, this`lexSteps, this`lexLife
      ensures LexKept() && store.View() == old(store.View()).(ledger := records, objects := map[])
      ensures old(store.objects) == map[] ==> Steady(old(lexLife), lexLife)
      ensures lexLife.open == old(lexLife.open) && lexLife.restored == old(lexLife.restored)
    {
      AppendAll(records);
      if store.objects != map[] {
        NoteLex(Break(map[], lex.tables));
      }
      store.ClearProjection();
    }

    /** Projects what an import appended, inside its transaction. */
    method ProjectImport(records: seq<Record>) returns (ok: bool)
      requires Valid() && store.depth > 0 && store.ledger == [] && Chain(h, records)
      modifies this, store, prov, lex
      ensures Valid() && store.View() == old(store.View()).(ledger := records, objects := store.objects)
      ensures ok == Replay(records).Some?
      ensures ok ==> Some(store.objects) == Replay(records)
      ensures provLife.open == old(provLife.open) && provLife.restored == old(provLife.restored)
      ensures old(store.objects) == map[] ==> Steady(old(lexLife), lexLife)
      ensures lexLife.open == old(lexLife.open) && lexLife.restored == old(lexLife.restored)
      ensures ok && provLife.now.doubtful ==> old(provLife.now.doubtful)
    {
      ghost var was, stale := provLife, prov.rows != {};
      HealthyAreExact();
      Unpack(records);
      var count;
      ghost var clean;
      ok, count, clean := ProjectAll(records);
      NoteReplay(was, records, stale, ok, clean);
    }

    /** Imports a verified export into an empty engine, record for record. */
    method ImportEvents(records: seq<Record>) returns (ok: bool)
      requires Valid()
      modifies this, store, prov, lex
      ensures Valid() && store.depth == old(store.depth)
      ensures ok <==> old(store.ledger) == [] && Chain(h, records) && Replay(records).Some?
      ensures ok ==> store.ledger == records && Some(store.objects) == Replay(records)
      ensures !ok && store.depth == 0 ==> store.ledger == old(store.ledger) && store.objects == old(store.objects)
      ensures store.depth == 0 && provLife.now.doubtful ==> old(provLife.now.doubtful)
      ensures store.depth == 0 && old(store.objects) == map[] && lexLife.now.doubtful ==> old(lexLife.now.doubtful)
    {
      if store.ledger != [] {
        return false;
      }
      var verdict := VerifyChain(h, records, None, None);
      if verdict.Refused? {
        return false;
      }
      Enter();
      ok := ProjectImport(records);
      Leave(!ok);
    }

    /** Imports an export of an older schema into an empty engine: the chain is verified as received, and what the
        migration made of its events is sealed anew. */
    method ImportMigrated(received: seq<Record>, events: seq<Event>) returns (ok: bool)
      requires Valid()
      modifies this, store, prov, lex
      ensures Valid() && store.depth == old(store.depth)
      ensures ok <==> old(store.ledger) == [] && Chain(h, received) && Transacted(old(store.objects), events).ok
      ensures ok ==> store.ledger == Extended(h, [], events)
      ensures ok ==> store.objects == Transacted(old(store.objects), events).objects
      ensures !ok && store.depth == 0 ==> store.ledger == old(store.ledger) && store.objects == old(store.objects)
      ensures store.depth == 0 && provLife.now.doubtful ==> old(provLife.now.doubtful)
      ensures store.depth == 0 && lexLife.now.doubtful ==> old(lexLife.now.doubtful)
    {
      if store.ledger != [] {
        return false;
      }
      var verdict := VerifyChain(h, received, None, None);
      if verdict.Refused? {
        return false;
      }
      Enter();
      ok := EmitAll(events);
      assert store.ledger[..0] == [];
      Leave(!ok);
    }
  }

  /******* A life that ends healthy and wrong *******/

  /** The replay that `verify` does not catch, as a life of the lexical index: its flag is set back by the check, and
      the tables are not exact. */
  lemma StaleRunEndsHealthy(next: LexicalIndex.Numbering, a: Obj, c: Obj, d: Obj) returns (steps: seq<LexStep>)
    requires a.id != c.id && a.id != d.id && c.id != d.id
    requires LexicalIndex.Searchable(a) && LexicalIndex.Searchable(c)
    requires Text.ObjectText(d) == Text.ObjectText(c)
    requires next(map[]) == 1 && next(map[1 := LexicalIndex.RowOf(a)]) == 2
    requires next(map[1 := LexicalIndex.RowOf(a), 2 := LexicalIndex.RowOf(d)]) == 3
    ensures AllFaithful(LexExact(), Born(map[], LexicalIndex.NO_ROWS, Healthy), steps)
    ensures var s := Run(Born(map[], LexicalIndex.NO_ROWS, Healthy), steps);
            && s.open.None? && s.now.health == Healthy && s.now.doubtful
            && LexicalIndex.Consistent(s.now.truth, s.now.rows) && !LexicalIndex.Exact(s.now.truth, s.now.rows)
  {
    var ts := LexicalIndex.StaleEntryPassesVerify(next, a, c, d);
    var start := Born(map[], LexicalIndex.NO_ROWS, Healthy);
    var one, two: Objects := map[a.id := a], map[a.id := a, c.id := c];
    var three: Objects := map[a.id := a, c.id := c, d.id := d];
    MissingIsInexact(one, ts[1], a);
    MissingIsInexact(two, ts[2], a);
    MissingIsInexact(two, ts[3], a);
    MissingIsInexact(three, ts[4], a);
    steps := TrustedWrongly(LexExact(), start, (one, ts[1]), (two, ts[2]), (two, ts[3]), (three, ts[4]),
                            (three, ts[5]));
  }

  /** The same for the provenance index: recording the first record fails, and the rebuild is rolled back. */
  lemma RolledBackRunEndsHealthy(r: Record) returns (steps: seq<ProvStep>)
    requires ProvenanceIndex.Leaves(r) != {}
    ensures AllFaithful(ProvExact(), Born([], {}, Healthy), steps)
    ensures var s := Run(Born([], {}, Healthy), steps);
            && s.open.None? && s.now.truth == [r] && s.now.rows == {}
            && s.now.health == Healthy && s.now.doubtful && !ProvenanceIndex.Exact(s.now.truth, s.now.rows)
  {
    var start: ProvLife := Born([], {}, Healthy);
    var id :| id in ProvenanceIndex.Leaves(r);
    assert (id, [r][0].seqno) in ProvenanceIndex.RowsOf([r]);
    assert Faithful(ProvExact(), start, Write([r], {}, true));
    steps := Continued(ProvExact(), start, [], Begin);
    steps := Continued(ProvExact(), start, steps, Write([r], {}, true));
    steps := Continued(ProvExact(), start, steps, End(false));
    var degraded := Run(start, steps);
    RebuildRolledBack(ProvExact(), degraded, ProvenanceIndex.RowsOf([r]));
    steps := Continued(ProvExact(), start, steps, Begin);
    steps := Continued(ProvExact(), start, steps, Restore(ProvenanceIndex.RowsOf([r])));
    steps := Continued(ProvExact(), start, steps, End(true));
  }

  lemma MissingIsInexact(objs: Objects, t: LexicalIndex.Tables, a: Obj)
    requires a.id in objs && objs[a.id] == a && LexicalIndex.Searchable(a) && a.id !in t.rids
    ensures !LexExact()(objs, t)
  {
  }
}
