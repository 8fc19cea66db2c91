/** The lexical index: two tables, kept beside the objects statement by statement. */
module LexicalIndex {
  import opened Model
  import opened IndexHealth
  import opened Text

  datatype Row = Row(content: string, id: Id, tenant: string, namespace: string, kind: Kind)

  /** `rids` maps an object to its row number, `rows` a row number to its row. */
  datatype Tables = Tables(rids: map<Id, int>, rows: map<int, Row>)

  const NO_ROWS := Tables(map[], map[])

  function RowOf(o: Obj): Row {
    Row(ObjectText(o), o.id, o.tenant, o.namespace, o.kind)
  }

  predicate Searchable(o: Obj) {
    ObjectText(o) != ""
  }

  ghost predicate Injective(t: Tables) {
    forall a, b :: a in t.rids && b in t.rids && t.rids[a] == t.rids[b] ==> a == b
  }

  /** The tables are the image of the objects: one row for each searchable object, no other. */
  ghost predicate Exact(objs: Objects, t: Tables) {
    && (forall id :: id in t.rids <==> id in objs && Searchable(objs[id]))
    && Injective(t)
    && t.rows.Keys == t.rids.Values
    && (forall id :: id in t.rids ==> t.rids[id] in t.rows && t.rows[t.rids[id]] == RowOf(objs[id]))
  }

  /******* Statements *******/

  function Removed(t: Tables, id: Id): Tables {
    if id in t.rids then Tables(t.rids - {id}, t.rows - {t.rids[id]}) else t
  }

  function Inserted(t: Tables, o: Obj, rid: int): Tables {
    Tables(t.rids[o.id := rid], t.rows[rid := RowOf(o)])
  }

  function Reindexed(t: Tables, o: Obj, rid: int): Tables {
    if Searchable(o) then Inserted(Removed(t, o.id), o, rid) else Removed(t, o.id)
  }

  /** How the database numbers a new row; it never gives out a number in use. */
  type Numbering = map<int, Row> -> int

  ghost predicate GivesUnused(next: Numbering) {
    forall rows: map<int, Row> :: next(rows) !in rows
  }

  /** The row is deleted, the map entry is not. */
  function RowGone(t: Tables, id: Id): Tables
    requires id in t.rids
  {
    t.(rows := t.rows - {t.rids[id]})
  }

  /** What re-indexing an object does to the tables: all of it, or, when a statement fails, whatever the statements
      before it did. */
  predicate Reindexing(next: Numbering, t: Tables, o: Obj, failed: bool, later: Tables) {
    var removed := Removed(t, o.id);
    if !failed then later == Reindexed(t, o, next(removed.rows))
    else
      || later == t
      || (o.id in t.rids && later == RowGone(t, o.id))
      || (Searchable(o) && later == removed)
      || (Searchable(o) && later == removed.(rows := removed.rows[next(removed.rows) := RowOf(o)]))
  }

  /** Clearing deletes the rows, then the map entries; a failing statement stops it. */
  predicate Clearing(t: Tables, ok: bool, later: Tables) {
    if ok then later == NO_ROWS else later == t || later == t.(rows := map[])
  }

  lemma RemovedIsExact(objs: Objects, t: Tables, id: Id)
    requires Exact(objs, t)
    ensures Exact(objs - {id}, Removed(t, id))
  {
    if id in t.rids {
      ValuesWithout(t.rids, id);
    }
  }

  lemma ValuesWithout(m: map<Id, int>, id: Id)
    requires id in m && forall a, b :: a in m && b in m && m[a] == m[b] ==> a == b
    ensures (m - {id}).Values == m.Values - {m[id]}
  {
    var rest := m - {id};
    forall v | v in m.Values && v != m[id] ensures v in rest.Values {
      var x :| x in m && m[x] == v;
      assert rest[x] == v;
    }
  }

  lemma ValuesWith(m: map<Id, int>, id: Id, rid: int)
    requires id !in m
    ensures m[id := rid].Values == m.Values + {rid}
  {
    var more := m[id := rid];
    assert more[id] == rid;
    forall v | v in m.Values ensures v in more.Values {
      var x :| x in m && m[x] == v;
      assert more[x] == v;
    }
  }

  lemma InsertedIsExact(objs: Objects, t: Tables, o: Obj, rid: int)
    requires Exact(objs, t) && o.id !in objs && Searchable(o) && rid !in t.rows
    ensures Exact(objs[o.id := o], Inserted(t, o, rid))
  {
    ValuesWith(t.rids, o.id, rid);
    forall x | x in t.rids ensures t.rids[x] != rid {
      assert t.rids[x] in t.rids.Values;
    }
  }

  lemma ReindexedIsExact(objs: Objects, t: Tables, o: Obj, rid: int)
    requires Exact(objs, t) && rid !in Removed(t, o.id).rows
    ensures Exact(objs[o.id := o], Reindexed(t, o, rid))
  {
    RemovedIsExact(objs, t, o.id);
    if Searchable(o) {
      InsertedIsExact(objs - {o.id}, Removed(t, o.id), o, rid);
      assert (objs - {o.id})[o.id := o] == objs[o.id := o];
    } else {
      WithoutText(objs, Removed(t, o.id), o);
    }
  }

  /** When no statement fails, exact tables stay exact. */
  lemma ReindexingIsExact(next: Numbering, objs: Objects, t: Tables, o: Obj, later: Tables)
    requires GivesUnused(next) && Exact(objs, t) && Reindexing(next, t, o, false, later)
    ensures Exact(objs[o.id := o], later)
  {
    ReindexedIsExact(objs, t, o, next(Removed(t, o.id).rows));
  }

  lemma WithoutText(objs: Objects, t: Tables, o: Obj)
    requires Exact(objs - {o.id}, t) && !Searchable(o)
    ensures Exact(objs[o.id := o], t)
  {
    forall id ensures id in t.rids <==> id in objs[o.id := o] && Searchable(objs[o.id := o][id]) {
      assert id in t.rids <==> id in objs - {o.id} && Searchable((objs - {o.id})[id]);
    }
  }

  /** What `verify` compares: the indexed ids, the two row counts, and each row's content. */
  ghost predicate Consistent(objs: Objects, t: Tables) {
    && (forall id :: id in t.rids <==> id in objs && Searchable(objs[id]))
    && |t.rids| == |t.rows|
    && (forall id :: id in t.rids ==> t.rids[id] in t.rows && t.rows[t.rids[id]].content == ObjectText(objs[id]))
  }

  predicate HoldsText(t: Tables, id: Id, text: string)
    requires id in t.rids
  {
    t.rids[id] in t.rows && t.rows[t.rids[id]].content == text
  }

  predicate Holding(t: Tables, texts: map<Id, string>)
    requires t.rids.Keys == texts.Keys
  {
    forall id :: id in t.rids ==> HoldsText(t, id, texts[id])
  }

  lemma SearchableTexts(objs: Objects, t: Tables, texts: map<Id, string>)
    requires texts == map id | id in objs && Searchable(objs[id]) :: ObjectText(objs[id])
    ensures Consistent(objs, t) <==> t.rids.Keys == texts.Keys && |t.rids| == |t.rows| && Holding(t, texts)
  {
    assert (forall id :: id in t.rids <==> id in objs && Searchable(objs[id])) <==> t.rids.Keys == texts.Keys;
  }

  /** The first objects of a listing. */
  function FirstOf(objs: Objects, order: seq<Id>, n: nat): Objects
    requires n <= |order|
  {
    map id | id in order[..n] && id in objs :: objs[id]
  }

  lemma FirstOfNext(objs: Objects, order: seq<Id>, n: nat)
    requires n < |order| && order[n] in objs
    ensures FirstOf(objs, order, n + 1) == FirstOf(objs, order, n)[order[n] := objs[order[n]]]
  {
    assert order[..n + 1] == order[..n] + [order[n]];
  }

  lemma FirstOfAll(objs: Objects, order: seq<Id>)
    requires forall id :: id in order <==> id in objs
    ensures FirstOf(objs, order, |order|) == objs && FirstOf(objs, order, 0) == map[]
  {
    assert order[..|order|] == order;
  }

  class Index {
    const next: Numbering
    var state: Health
    var tables: Tables

    constructor (next: Numbering)
      ensures this.next == next && state == Healthy && tables == NO_ROWS
    {
      this.next := next;
      state, tables := Healthy, NO_ROWS;
    }

    /** Deletes an object's row, then its map entry; either statement may fail. */
    method RemoveLocked(id: Id) returns (ok: bool)
      modifies this`tables
      ensures ok ==> tables == Removed(old(tables), id)
      ensures !ok ==> tables == old(tables) || (id in old(tables).rids && tables == RowGone(old(tables), id))
    {
      ok := *;
      if !ok || id !in tables.rids {
        return;
      }
      tables := tables.(rows := tables.rows - {tables.rids[id]});
      ok := *;
      if !ok {
        return;
      }
      tables := tables.(rids := tables.rids - {id});
    }

    /** Re-indexes one object statement by statement. When some statement fails, the tables stay
        as they were left and the index is degraded. */
    method Reindex(o: Obj) returns (failed: bool)
      modifies this
      ensures old(state) == Unavailable ==> !failed && state == Unavailable && tables == old(tables)
      ensures old(state) != Unavailable ==>
                state == (if failed then Degraded else old(state)) &&
                Reindexing(next, old(tables), o, failed, tables)
    {
      failed := false;
      if state == Unavailable {
        return;
      }
      var ok := RemoveLocked(o.id);
      if ok && Searchable(o) {
        ok := InsertLocked(o);
      }
      if !ok {
        state := Degraded;
      }
      failed := !ok;
    }

    /** Inserts an object's row, then its map entry; either statement may fail. */
    method InsertLocked(o: Obj) returns (ok: bool)
      modifies this`tables
      ensures ok ==> tables == Inserted(old(tables), o, next(old(tables).rows))
      ensures !ok ==> tables == old(tables) ||
                      tables == old(tables).(rows := old(tables).rows[next(old(tables).rows) := RowOf(o)])
    {
      ok := *;
      if !ok {
        return;
      }
      var rid := next(tables.rows);
      tables := tables.(rows := tables.rows[rid := RowOf(o)]);
      ok := *;
      if !ok {
        return;
      }
      tables := tables.(rids := tables.rids[o.id := rid]);
    }

    /** Deletes all rows of both tables; either statement may fail. */
    method Clear() returns (ok: bool)
      modifies this`tables
      ensures state == Unavailable ==> ok && tables == old(tables)
      ensures state != Unavailable ==> Clearing(old(tables), ok, tables)
    {
      if state == Unavailable {
        return true;
      }
      ok := *;
      if !ok {
        return;
      }
      tables := tables.(rows := map[]);
      ok := *;
      if ok {
        tables := tables.(rids := map[]);
      }
    }

    method MarkDegraded()
      modifies this`state
      ensures state == if old(state) == Unavailable then Unavailable else Degraded
    {
      if state != Unavailable {
        state := Degraded;
      }
    }

    method RestoreHealthy()
      modifies this`state
      ensures state == if old(state) == Unavailable then Unavailable else Healthy
    {
      if state != Unavailable {
        state := Healthy;
      }
    }

    /** Compares the tables with the objects; a healthy index found wrong is degraded. */
    method Verify(objs: Objects) returns (ok: bool)
      modifies this`state
      ensures ok <==> old(state) != Unavailable && Consistent(objs, tables)
      ensures state == if !ok && old(state) == Healthy then Degraded else old(state)
    {
      if state == Unavailable {
        return false;
      }
      var searchable := map id | id in objs && Searchable(objs[id]) :: ObjectText(objs[id]);
      ok := tables.rids.Keys == searchable.Keys && |tables.rids| == |tables.rows|;
      if ok {
        ok := ContentsAgree(searchable);
      }
      SearchableTexts(objs, tables, searchable);
      if !ok && state == Healthy {
        state := Degraded;
      }
    }

    /** Compares each indexed row's content with the text it should hold. */
    method ContentsAgree(texts: map<Id, string>) returns (ok: bool)
      requires tables.rids.Keys == texts.Keys
      ensures ok <==> Holding(tables, texts)
    {
      ok := true;
      var left := tables.rids.Keys;
      while ok && left != {}
        invariant left <= tables.rids.Keys
        invariant if ok then forall id :: id in tables.rids && id !in left ==> HoldsText(tables, id, texts[id])
                  else exists id :: id in tables.rids && !HoldsText(tables, id, texts[id])
        decreases |left|
      {
        var id :| id in left;
        left := left - {id};
        ok := HoldsText(tables, id, texts[id]);
      }
    }

    /** Indexes all objects into empty tables, as long as no statement fails. */
    method ReindexAll(objs: Objects, order: seq<Id>) returns (ok: bool)
      requires forall id :: id in order <==> id in objs
      requires forall id :: id in objs ==> objs[id].id == id
      requires GivesUnused(next) && state != Unavailable && tables == NO_ROWS
      modifies this
      ensures state != Unavailable && (ok ==> Exact(objs, tables))
    {
      ok := true;
      var i := 0;
      FirstOfAll(objs, order);
      while ok && i < |order|
        invariant 0 <= i <= |order| && state != Unavailable
        invariant ok ==> Exact(FirstOf(objs, order, i), tables)
      {
        var o := objs[order[i]];
        ghost var before := tables;
        var failed := Reindex(o);
        ok := !failed;
        FirstOfNext(objs, order, i);
        if ok {
          ReindexingIsExact(next, FirstOf(objs, order, i), before, o, tables);
        }
        i := i + 1;
      }
    }

    /** Rebuilds both tables from the objects in a transaction. When no statement fails the tables are exact and
        healthy, whatever they held before; otherwise the index is degraded, and the tables are put back only if
        this transaction is the outermost one. */
    method Rebuild(objs: Objects, order: seq<Id>, nested: bool) returns (ok: bool)
      requires forall id :: id in order <==> id in objs
      requires forall id :: id in objs ==> objs[id].id == id
      requires GivesUnused(next)
      modifies this
      ensures old(state) == Unavailable ==> ok && state == Unavailable && tables == old(tables)
      ensures old(state) != Unavailable && ok ==> state == Healthy && Exact(objs, tables)
      ensures old(state) != Unavailable && !ok ==> state == Degraded && (!nested ==> tables == old(tables))
    {
      ok := true;
      if state == Unavailable {
        return;
      }
      var saved := tables;
      state := Rebuilding;
      ok := Clear();
      if ok {
        ok := ReindexAll(objs, order);
      }
      if ok {
        state := Healthy;
      } else {
        if !nested {
          tables := saved;
        }
        state := Degraded;
      }
    }
  }

  /******* What verify can and cannot tell *******/

  /** Each indexed object's row carries that object's id, scope and kind. */
  ghost predicate Labelled(objs: Objects, t: Tables) {
    forall id :: id in t.rids && id in objs && t.rids[id] in t.rows ==>
      t.rows[t.rids[id]] == RowOf(objs[id]).(content := t.rows[t.rids[id]].content)
  }

  lemma {:induction false} ValuesCard(m: map<Id, int>)
    requires forall a, b :: a in m && b in m && m[a] == m[b] ==> a == b
    ensures |m.Values| == |m|
    decreases |m|
  {
    if m == map[] {
      assert m.Values == {};
    } else {
      var k :| k in m;
      var rest := m - {k};
      ValuesCard(rest);
      assert m.Values == rest.Values + {m[k]} by {
        forall v | v in m.Values ensures v in rest.Values + {m[k]} {
          var x :| x in m && m[x] == v;
          assert x != k ==> rest[x] == v;
        }
      }
      assert m[k] !in rest.Values;
      assert |rest| == |m| - 1 by {
        assert m.Keys == rest.Keys + {k};
      }
    }
  }

  /** Exactness is what `verify` checks, together with the two things it does not look at: that no
      two objects share a row, and that rows are labelled with their own object. */
  lemma ExactIffVerified(objs: Objects, t: Tables)
    ensures Exact(objs, t) <==> Consistent(objs, t) && Injective(t) && Labelled(objs, t)
  {
    if Injective(t) {
      ValuesCard(t.rids);
    }
    if Consistent(objs, t) && Injective(t) && Labelled(objs, t) {
      assert t.rids.Values <= t.rows.Keys;
      SubsetSameCard(t.rids.Values, t.rows.Keys);
    }
  }

  lemma SubsetSameCard<T>(a: set<T>, b: set<T>)
    requires a <= b && |a| == |b|
    ensures a == b
  {
    assert b == a + (b - a);
  }

  /** The tables while objects are re-indexed one by one; `failures` says at which of them a statement failed. */
  predicate Replaying(next: Numbering, ts: seq<Tables>, os: seq<Obj>, failures: seq<bool>) {
    && |ts| == |os| + 1 && |failures| == |os|
    && forall i :: 0 <= i < |os| ==> Reindexing(next, ts[i], os[i], failures[i], ts[i + 1])
  }

  function PutAll(objs: Objects, os: seq<Obj>): Objects
    decreases |os|
  {
    if os == [] then objs else PutAll(objs[os[0].id := os[0]], os[1..])
  }

  lemma ReplayingRest(next: Numbering, ts: seq<Tables>, os: seq<Obj>, failures: seq<bool>)
    requires Replaying(next, ts, os, failures) && os != []
    ensures Reindexing(next, ts[0], os[0], failures[0], ts[1]) && Replaying(next, ts[1..], os[1..], failures[1..])
  {
    forall i | 0 <= i < |os[1..]| ensures Reindexing(next, ts[1..][i], os[1..][i], failures[1..][i], ts[1..][i + 1]) {
      assert Reindexing(next, ts[i + 1], os[i + 1], failures[i + 1], ts[i + 2]);
    }
  }

  /** A replay without a failing statement keeps exact tables exact: from cleared ones, whatever was cleared. */
  lemma {:induction false} CleanReplayIsExact(next: Numbering, objs: Objects, ts: seq<Tables>, os: seq<Obj>,
                                              failures: seq<bool>)
    requires GivesUnused(next) && Replaying(next, ts, os, failures) && Exact(objs, ts[0])
    requires forall i :: 0 <= i < |failures| ==> !failures[i]
    ensures Exact(PutAll(objs, os), ts[|os|])
    decreases |os|
  {
    if os != [] {
      ReplayingRest(next, ts, os, failures);
      ReindexingIsExact(next, objs, ts[0], os[0], ts[1]);
      CleanReplayIsExact(next, objs[os[0].id := os[0]], ts[1..], os[1..], failures[1..]);
    }
  }

  /** A run that `verify` does not catch. Starting from cleared tables, the map entry of `a` is not
      written; later the map entry of `c` is not deleted when its row is; then `d`, whose text is
      that of `c`, reuses the row number. The tables pass, yet they are not exact: no row is labelled `c`,
      so that `c` can no longer be found. */
  lemma StaleEntryPassesVerify(next: Numbering, a: Obj, c: Obj, d: Obj) returns (ts: seq<Tables>)
    requires a.id != c.id && a.id != d.id && c.id != d.id
    requires Searchable(a) && Searchable(c) && ObjectText(d) == ObjectText(c)
    requires next(map[]) == 1 && next(map[1 := RowOf(a)]) == 2 && next(map[1 := RowOf(a), 2 := RowOf(d)]) == 3
    ensures Replaying(next, ts, [a, c, c, d, a], [true, false, true, false, false]) && ts[0] == NO_ROWS
    ensures forall i :: 0 <= i <= 4 ==> a.id !in ts[i].rids
    ensures PutAll(map[], [a, c, c, d, a]) == map[a.id := a, c.id := c, d.id := d]
    ensures var objs: Objects := map[a.id := a, c.id := c, d.id := d];
            && Consistent(objs, ts[5]) && !Exact(objs, ts[5])
            && forall n :: n in ts[5].rows ==> ts[5].rows[n].id != c.id
  {
    ts := StaleTrace(a, c, d);
    StaleSteps(next, a, c, d, ts[1], ts[2], ts[3], ts[4], ts[5]);
    StaleReplay(next, a, c, d, ts[1], ts[2], ts[3], ts[4], ts[5]);
    StaleNever(a, c, d);
    StaleTablesPass(a, c, d, ts[5]);
    StaleObjects(a, c, d);
  }

  function StaleTrace(a: Obj, c: Obj, d: Obj): (ts: seq<Tables>)
    ensures |ts| == 6 && ts == [ts[0], ts[1], ts[2], ts[3], ts[4], ts[5]]
  {
    [NO_ROWS,
     Tables(map[], map[1 := RowOf(a)]),
     Tables(map[c.id := 2], map[1 := RowOf(a), 2 := RowOf(c)]),
     Tables(map[c.id := 2], map[1 := RowOf(a)]),
     Tables(map[c.id := 2, d.id := 2], map[1 := RowOf(a), 2 := RowOf(d)]),
     Tables(map[c.id := 2, d.id := 2, a.id := 3], map[1 := RowOf(a), 2 := RowOf(d), 3 := RowOf(a)])]
  }

  lemma StaleNever(a: Obj, c: Obj, d: Obj)
    requires a.id != c.id && a.id != d.id
    ensures forall i :: 0 <= i <= 4 ==> a.id !in StaleTrace(a, c, d)[i].rids
  {
  }

  lemma StaleReplay(next: Numbering, a: Obj, c: Obj, d: Obj, t1: Tables, t2: Tables, t3: Tables, t4: Tables, t5: Tables)
    requires Reindexing(next, NO_ROWS, a, true, t1) && Reindexing(next, t1, c, false, t2)
    requires Reindexing(next, t2, c, true, t3) && Reindexing(next, t3, d, false, t4)
    requires Reindexing(next, t4, a, false, t5)
    ensures Replaying(next, [NO_ROWS, t1, t2, t3, t4, t5], [a, c, c, d, a], [true, false, true, false, false])
  {
    var ts, os, failures := [NO_ROWS, t1, t2, t3, t4, t5], [a, c, c, d, a], [true, false, true, false, false];
    forall i | 0 <= i < 5 ensures Reindexing(next, ts[i], os[i], failures[i], ts[i + 1]) {
      assert i == 0 || i == 1 || i == 2 || i == 3 || i == 4;
    }
  }

  lemma PutOne(objs: Objects, o: Obj, rest: seq<Obj>)
    ensures PutAll(objs, [o] + rest) == PutAll(objs[o.id := o], rest)
  {
    assert ([o] + rest)[1..] == rest;
  }

  lemma StaleObjects(a: Obj, c: Obj, d: Obj)
    requires a.id != c.id && a.id != d.id && c.id != d.id
    ensures PutAll(map[], [a, c, c, d, a]) == map[a.id := a, c.id := c, d.id := d]
  {
    var one: Objects := map[a.id := a];
    var two: Objects := map[a.id := a, c.id := c];
    assert [a] + [c, c, d, a] == [a, c, c, d, a];
    PutOne(map[], a, [c, c, d, a]);
    assert [c] + [c, d, a] == [c, c, d, a];
    PutOne(one, c, [c, d, a]);
    assert one[c.id := c] == two && two[c.id := c] == two;
    assert [c] + [d, a] == [c, d, a];
    PutOne(two, c, [d, a]);
    assert [d] + [a] == [d, a];
    PutOne(two, d, [a]);
    assert [a] + [] == [a];
    PutOne(two[d.id := d], a, []);
    assert two[d.id := d][a.id := a] == map[a.id := a, c.id := c, d.id := d];
  }

  lemma StaleSteps(next: Numbering, a: Obj, c: Obj, d: Obj, t1: Tables, t2: Tables, t3: Tables, t4: Tables, t5: Tables)
    requires a.id != c.id && a.id != d.id && c.id != d.id
    requires Searchable(a) && Searchable(c) && Searchable(d)
    requires next(map[]) == 1 && next(map[1 := RowOf(a)]) == 2 && next(map[1 := RowOf(a), 2 := RowOf(d)]) == 3
    requires t1 == Tables(map[], map[1 := RowOf(a)])
    requires t2 == Tables(map[c.id := 2], map[1 := RowOf(a), 2 := RowOf(c)])
    requires t3 == Tables(map[c.id := 2], map[1 := RowOf(a)])
    requires t4 == Tables(map[c.id := 2, d.id := 2], map[1 := RowOf(a), 2 := RowOf(d)])
    requires t5 == Tables(map[c.id := 2, d.id := 2, a.id := 3], map[1 := RowOf(a), 2 := RowOf(d), 3 := RowOf(a)])
    ensures Reindexing(next, NO_ROWS, a, true, t1) && Reindexing(next, t1, c, false, t2)
    ensures Reindexing(next, t2, c, true, t3) && Reindexing(next, t3, d, false, t4) &&
            Reindexing(next, t4, a, false, t5)
  {
    assert t2.rows - {2} == t3.rows;
    assert t3.rows == map[1 := RowOf(a)];
  }

  lemma StaleTablesPass(a: Obj, c: Obj, d: Obj, t: Tables)
    requires a.id != c.id && a.id != d.id && c.id != d.id
    requires Searchable(a) && Searchable(c) && ObjectText(d) == ObjectText(c)
    requires t.rids == map[c.id := 2, d.id := 2, a.id := 3] &&
             t.rows == map[1 := RowOf(a), 2 := RowOf(d), 3 := RowOf(a)]
    ensures var objs: Objects := map[a.id := a, c.id := c, d.id := d];
            Consistent(objs, t) && !Exact(objs, t) && forall n :: n in t.rows ==> t.rows[n].id != c.id
  {
    assert t.rows.Keys == {1, 2, 3} && t.rids.Keys == {a.id, c.id, d.id};
    assert |t.rows| == |t.rows.Keys| && |t.rids| == |t.rids.Keys|;
    assert t.rids[c.id] == t.rids[d.id];
  }
}
