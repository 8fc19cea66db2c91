/** The index from object ids to the records whose payload mentions them. */
module ProvenanceIndex {
  import opened Model
  import opened Operations
  import opened IndexHealth

  /******* Mentions *******/

  /** Does the id occur as a string value anywhere in the JSON value? */
  predicate RefsId(v: Json, id: Id) {
    match v
    case Str(s) => s == id
    case Arr(items) => exists i :: 0 <= i < |items| && RefsId(items[i], id)
    case Dict(fields) => exists i :: 0 <= i < |fields| && RefsId(fields[i].value, id)
    case _ => false
  }

  /** The id-shaped string values of a JSON value. */
  function IdLeaves(v: Json): set<Id> {
    match v
    case Str(s) => if IdShape(s) then {s} else {}
    case Arr(items) => set i, x | 0 <= i < |items| && x in IdLeaves(items[i]) :: x
    case Dict(fields) => set i, x | 0 <= i < |fields| && x in IdLeaves(fields[i].value) :: x
    case _ => {}
  }

  /** The walk that adds the leaves to a set it is given. */
  method CollectLeaves(v: Json, found: set<Id>) returns (out: set<Id>)
    ensures out == found + IdLeaves(v)
    decreases v
  {
    out := found;
    match v {
      case Str(s) =>
        if IdShape(s) {
          out := out + {s};
        }
      case Arr(items) =>
        for i := 0 to |items|
          invariant forall x :: x in out <==> x in found || exists k :: 0 <= k < i && x in IdLeaves(items[k])
        {
          out := CollectLeaves(items[i], out);
        }
        assert forall x :: x in IdLeaves(v) <==> exists k :: 0 <= k < |items| && x in IdLeaves(items[k]);
      case Dict(fields) =>
        for i := 0 to |fields|
          invariant forall x :: x in out <==> x in found || exists k :: 0 <= k < i && x in IdLeaves(fields[k].value)
        {
          out := CollectLeaves(fields[i].value, out);
        }
        assert forall x :: x in IdLeaves(v) <==> exists k :: 0 <= k < |fields| && x in IdLeaves(fields[k].value);
      case _ =>
    }
  }

  /** For an id-shaped id, being mentioned and being a leaf are the same. */
  lemma {:induction false} MentionedIffLeaf(v: Json, id: Id)
    requires IdShape(id)
    ensures RefsId(v, id) <==> id in IdLeaves(v)
    decreases v
  {
    match v
    case Arr(items) =>
      forall i | 0 <= i < |items| ensures RefsId(items[i], id) <==> id in IdLeaves(items[i]) {
        MentionedIffLeaf(items[i], id);
      }
    case Dict(fields) =>
      forall i | 0 <= i < |fields| ensures RefsId(fields[i].value, id) <==> id in IdLeaves(fields[i].value) {
        MentionedIffLeaf(fields[i].value, id);
      }
    case _ =>
  }

  function Leaves(r: Record): set<Id> {
    IdLeaves(PayloadJson(r.event.payload))
  }

  type Rows = set<(Id, int)>

  /** The rows that exactly mirror a ledger. */
  function RowsOf(ledger: seq<Record>): Rows {
    set i, id | 0 <= i < |ledger| && id in Leaves(ledger[i]) :: (id, ledger[i].seqno)
  }

  predicate Exact(ledger: seq<Record>, rows: Rows) {
    rows == RowsOf(ledger)
  }

  function Numbered(leaves: set<Id>, seqno: int): Rows {
    set id | id in leaves :: (id, seqno)
  }

  /** Indexing one record: its old rows go, its leaves come. */
  function Recorded(rows: Rows, seqno: int, leaves: set<Id>): Rows {
    (set row | row in rows && row.1 != seqno) + Numbered(leaves, seqno)
  }

  lemma RecordedIsExact(ledger: seq<Record>, rows: Rows, r: Record)
    requires Exact(ledger, rows) && forall i :: 0 <= i < |ledger| ==> ledger[i].seqno != r.seqno
    ensures Exact(ledger + [r], Recorded(rows, r.seqno, Leaves(r)))
  {
    var longer := ledger + [r];
    var got, want := Recorded(rows, r.seqno, Leaves(r)), RowsOf(longer);
    forall row | row in want ensures row in got {
      var i, id :| 0 <= i < |longer| && id in Leaves(longer[i]) && row == (id, longer[i].seqno);
    }
    forall row | row in got ensures row in want {
      if row in rows && row.1 != r.seqno {
        var i, id :| 0 <= i < |ledger| && id in Leaves(ledger[i]) && row == (id, ledger[i].seqno);
        assert longer[i] == ledger[i];
      } else {
        assert longer[|ledger|] == r;
      }
    }
  }

  /** What indexing one record does to the flag and the rows: all of it, or, when a statement fails, some of it
      under a degraded flag. No other record's rows change. */
  ghost predicate Recording(was: Health, rows: Rows, seqno: int, leaves: set<Id>, state: Health, later: Rows) {
    if was == Unavailable then state == was && later == rows
    else
      || (state == was && later == Recorded(rows, seqno, leaves))
      || (state == Degraded && (later == rows || exists part :: part <= leaves && later == Recorded(rows, seqno, part)))
  }

  class Index {
    var state: Health
    var rows: Rows

    constructor ()
      ensures state == Healthy && rows == {}
    {
      state, rows := Healthy, {};
    }

    /** Indexes a sealed record. Any statement may fail. */
    method Record(seqno: int, payload: Payload)
      modifies this
      ensures Recording(old(state), old(rows), seqno, IdLeaves(PayloadJson(payload)), state, rows)
    {
      if state == Unavailable {
        return;
      }
      var failed: bool := *;
      if failed {
        state := Degraded;
        return;
      }
      rows := set row | row in rows && row.1 != seqno;
      var leaves := CollectLeaves(PayloadJson(payload), {});
      var written: set<Id>, stopped: bool := *, *;
      if stopped {
        rows := rows + Numbered(leaves * written, seqno);
        state := Degraded;
        assert leaves * written <= leaves && rows == Recorded(old(rows), seqno, leaves * written);
        return;
      }
      rows := rows + Numbered(leaves, seqno);
    }

    /** Deletes all rows, or raises and deletes none. */
    method Clear() returns (ok: bool)
      modifies this
      ensures state == old(state)
      ensures rows == if ok && state != Unavailable then {} else old(rows)
      ensures state == Unavailable ==> ok
    {
      ok := true;
      if state != Unavailable {
        ok := *;
        if ok {
          rows := {};
        }
      }
    }

    predicate UsableFor(id: Id)
      reads this
    {
      state == Healthy && IdShape(id)
    }

    /** The record numbers stored for an id; the query may fail. */
    method SeqsFor(id: Id) returns (ok: bool, seqs: set<int>)
      requires UsableFor(id)
      ensures ok ==> seqs == set row | row in rows && row.0 == id :: row.1
    {
      ok := *;
      seqs := set row | row in rows && row.0 == id :: row.1;
    }

    method MarkDegraded()
      modifies this`state
      ensures state == if old(state) == Unavailable then Unavailable else Degraded
    {
      if state != Unavailable {
        state := Degraded;
      }
    }

    method RestoreHealthy()
      modifies this`state
      ensures state == if old(state) == Unavailable then Unavailable else Healthy
    {
      if state != Unavailable {
        state := Healthy;
      }
    }

    /** True exactly when the rows mirror the ledger; a healthy index found wrong is degraded. */
    method Verify(ledger: seq<Record>) returns (ok: bool)
      modifies this`state
      ensures ok <==> old(state) != Unavailable && Exact(ledger, rows)
      ensures state == if !ok && old(state) == Healthy then Degraded else old(state)
    {
      if state == Unavailable {
        return false;
      }
      var expected: Rows := {};
      for i := 0 to |ledger|
        invariant expected == RowsOf(ledger[..i]) && state == old(state)
      {
        RowsStep(ledger, i);
        var leaves := CollectLeaves(PayloadJson(ledger[i].event.payload), {});
        expected := expected + Numbered(leaves, ledger[i].seqno);
      }
      assert ledger[..|ledger|] == ledger;
      ok := rows == expected;
      if !ok && state == Healthy {
        state := Degraded;
      }
    }

    /** Inserts the rows of every record into an empty table; any of the statements may fail. */
    method Refill(ledger: seq<Record>) returns (ok: bool)
      requires rows == {}
      modifies this`rows
      ensures ok ==> rows == RowsOf(ledger)
    {
      ok := true;
      assert rows == RowsOf(ledger[..0]);
      for i := 0 to |ledger|
        invariant rows == RowsOf(ledger[..i])
      {
        var leaves := CollectLeaves(PayloadJson(ledger[i].event.payload), {});
        ok := *;
        if !ok {
          return;
        }
        RowsStep(ledger, i);
        rows := rows + Numbered(leaves, ledger[i].seqno);
      }
      ok := true;
      assert ledger[..|ledger|] == ledger;
    }

    /** Rebuilds the rows in a transaction. When a statement fails the index is degraded; the rows are put back
        only if this transaction is the outermost one. */
    method Rebuild(ledger: seq<Record>, nested: bool) returns (ok: bool)
      modifies this
      ensures old(state) == Unavailable ==> ok && state == Unavailable && rows == old(rows)
      ensures old(state) != Unavailable && ok ==> state == Healthy && Exact(ledger, rows)
      ensures old(state) != Unavailable && !ok ==> state == Degraded && (!nested ==> rows == old(rows))
    {
      ok := true;
      if state == Unavailable {
        return;
      }
      state := Rebuilding;
      var saved := rows;
      ok := Clear();
      if ok {
        ok := Refill(ledger);
      }
      if ok {
        state := Healthy;
      } else {
        if !nested {
          rows := saved;
        }
        state := Degraded;
      }
    }
  }

  lemma RowsStep(ledger: seq<Record>, i: nat)
    requires i < |ledger|
    ensures RowsOf(ledger[..i + 1]) == RowsOf(ledger[..i]) + Numbered(Leaves(ledger[i]), ledger[i].seqno)
  {
    RowsSnoc(ledger[..i], ledger[i]);
    assert ledger[..i + 1] == ledger[..i] + [ledger[i]];
  }

  lemma RowsSnoc(ledger: seq<Record>, r: Record)
    ensures RowsOf(ledger + [r]) == RowsOf(ledger) + Numbered(Leaves(r), r.seqno)
  {
    var longer := ledger + [r];
    var want := RowsOf(ledger) + Numbered(Leaves(r), r.seqno);
    forall row | row in RowsOf(longer) ensures row in want {
      var i, id :| 0 <= i < |longer| && id in Leaves(longer[i]) && row == (id, longer[i].seqno);
    }
    forall row | row in want ensures row in RowsOf(longer) {
      if row in RowsOf(ledger) {
        var i, id :| 0 <= i < |ledger| && id in Leaves(ledger[i]) && row == (id, ledger[i].seqno);
        assert longer[i] == ledger[i];
      } else {
        assert longer[|ledger|] == r;
      }
    }
  }

  /** A healthy index over a chain finds, for an id-shaped id, exactly the records that mention it. */
  lemma ExactFindsMentions(ledger: seq<Record>, rows: Rows, id: Id, i: nat)
    requires Exact(ledger, rows) && IdShape(id) && i < |ledger|
    requires forall j, k :: 0 <= j < k < |ledger| ==> ledger[j].seqno != ledger[k].seqno
    ensures (id, ledger[i].seqno) in rows <==> RefsId(PayloadJson(ledger[i].event.payload), id)
  {
    MentionedIffLeaf(PayloadJson(ledger[i].event.payload), id);
    if (id, ledger[i].seqno) in rows {
      var j, x :| 0 <= j < |ledger| && x in Leaves(ledger[j]) && (id, ledger[i].seqno) == (x, ledger[j].seqno);
      assert j == i;
    }
  }
}
