/** The event stream: an authorized, capped tail of the ledger that a reader resumes by sequence number. */
module Stream {
  import opened Model
  import opened Selection

  const MAX_EVENTS := 500
  const MAX_ACTIVITY := 200

  /** The text under the first of some keys that holds a text. */
  function FirstText(fields: seq<Field>, keys: seq<string>): Option<string>
    decreases |keys|
  {
    if keys == [] then None
    else if TextAt(fields, keys[0]).Some? then TextAt(fields, keys[0])
    else FirstText(fields, keys[1..])
  }

  function TextAt(fields: seq<Field>, key: string): Option<string> {
    if fields == [] then None
    else if fields[0].key == key then (if fields[0].value.Str? then Some(fields[0].value.s) else None)
    else TextAt(fields[1..], key)
  }

  /** The object an event concerns. */
  function Concerned(p: Payload): Option<Id> {
    var view := PayloadJson(p);
    if view.Dict? then FirstText(view.fields, ["claim_id", "object_id", "obj_id", "id"]) else None
  }

  datatype Emitted = Emitted(seqno: int, op: Op, ts: Time, actor: string, id: Id, kind: Kind)

  /** What a reader may see now. */
  datatype Reader = Reader(tenant: string, namespace: string, objs: Objects, canRead: Obj -> bool)

  /** The redacted envelope of a record, when the reader may see it. */
  function Redacted(v: Reader, r: Record): Option<Emitted> {
    if r.event.tenant != v.tenant || r.event.namespace != v.namespace then None
    else
      var about := Concerned(r.event.payload);
      if about.None? || about.value !in v.objs || !v.canRead(v.objs[about.value]) then None
      else Some(Emitted(r.seqno, r.event.op, r.event.ts, r.event.actor, about.value, v.objs[about.value].kind))
  }

  /** What becomes of each record. */
  type Sight = Record -> Option<Emitted>

  function SightOf(v: Reader): Sight {
    (r: Record) => Redacted(v, r)
  }

  /** In order, the visible records numbered above `low` and up to `high`. */
  function Between(ledger: seq<Record>, see: Sight, low: int, high: int): seq<Record>
    decreases |ledger|
  {
    if ledger == [] then []
    else
      var front, r := Between(ledger[..|ledger| - 1], see, low, high), ledger[|ledger| - 1];
      if see(r).Some? && low < r.seqno <= high then front + [r] else front
  }

  /** All visible records numbered above `low`. */
  function After(ledger: seq<Record>, see: Sight, low: int): seq<Record>
    decreases |ledger|
  {
    if ledger == [] then []
    else
      var front, r := After(ledger[..|ledger| - 1], see, low), ledger[|ledger| - 1];
      if see(r).Some? && low < r.seqno then front + [r] else front
  }

  /** The cap is looked at after an event is added, so that one is always returned. */
  function Cap(max: int): (r: nat)
    ensures r >= 1 && r >= max && (r == 1 || r == max)
  {
    if max > 1 then max else 1
  }

  function Capped(rs: seq<Record>, max: int): seq<Record> {
    if |rs| <= Cap(max) then rs else rs[..Cap(max)]
  }

  lemma {:induction false} AfterIn(ledger: seq<Record>, see: Sight, low: int)
    ensures forall r :: r in After(ledger, see, low) <==> r in ledger && see(r).Some? && low < r.seqno
    decreases |ledger|
  {
    if ledger != [] {
      AfterIn(ledger[..|ledger| - 1], see, low);
      assert ledger == ledger[..|ledger| - 1] + [ledger[|ledger| - 1]];
    }
  }

  lemma {:induction false} AfterPrefix(ledger: seq<Record>, see: Sight, low: int, n: nat)
    requires n <= |ledger|
    ensures After(ledger[..n], see, low) <= After(ledger, see, low)
    decreases |ledger|
  {
    if n < |ledger| {
      var front := ledger[..|ledger| - 1];
      assert front[..n] == ledger[..n];
      AfterPrefix(front, see, low, n);
    } else {
      assert ledger[..n] == ledger;
    }
  }

  lemma AfterStep(ledger: seq<Record>, see: Sight, low: int, i: nat)
    requires i < |ledger|
    ensures var r := ledger[i];
            After(ledger[..i + 1], see, low) ==
            After(ledger[..i], see, low) + (if see(r).Some? && low < r.seqno then [r] else [])
  {
    assert ledger[..i + 1][..i] == ledger[..i];
  }

  /** The envelopes of some visible records. */
  ghost predicate Envelopes(see: Sight, rs: seq<Record>, out: seq<Emitted>) {
    |out| == |rs| && forall i :: 0 <= i < |rs| ==> see(rs[i]) == Some(out[i])
  }

  /** Going through the ledger until the cap is reached. */
  method Tail(ledger: seq<Record>, see: Sight, since: int, max: int) returns (out: seq<Emitted>)
    ensures Envelopes(see, Capped(After(ledger, see, since), max), out)
  {
    out := [];
    ghost var taken: seq<Record> := [];
    for i := 0 to |ledger|
      invariant taken == After(ledger[..i], see, since) && (|taken| < Cap(max) || i == 0)
      invariant Envelopes(see, taken, out)
    {
      var r := ledger[i];
      AfterStep(ledger, see, since, i);
      if r.seqno <= since {
        continue;
      }
      var e := see(r);
      if e.None? {
        continue;
      }
      taken := taken + [r];
      out := out + [e.value];
      if |out| >= max {
        AfterPrefix(ledger, see, since, i + 1);
        return;
      }
    }
    assert ledger[..|ledger|] == ledger;
  }

  /******* What a reader receives, said of the records alone *******/

  /** The object that an event is about: the claim that its object belongs to or that it changes, or else the object
      that it carries or places. */
  predicate IsAbout(p: Payload, id: Id) {
    match p
    case Whole(o) => id == if o.body.claimId.Some? then o.body.claimId.value else o.id
    case Place(x, _, _, _, _) => id == x
    case ClaimClosed(x, _, _, _) => id == x
    case Attach(x, _, _) => id == x
    case Govern(x, _) => id == x
    case _ => false
  }

  /** The reader may receive the record as this envelope. */
  predicate Tells(v: Reader, since: int, r: Record, e: Emitted) {
    && r.seqno > since && r.event.tenant == v.tenant && r.event.namespace == v.namespace
    && IsAbout(r.event.payload, e.id) && e.id in v.objs && v.canRead(v.objs[e.id])
    && e.seqno == r.seqno && e.op == r.event.op && e.ts == r.event.ts && e.actor == r.event.actor
    && e.kind == v.objs[e.id].kind
  }

  /** In ledger order, the envelopes of the records at these positions: as many as the cap allows, but always one; and
      no record that may be received is skipped before the last of them, or at all when there are fewer. */
  ghost predicate ReceivedAt(ledger: seq<Record>, v: Reader, since: int, max: int, out: seq<Emitted>, at: seq<nat>) {
    && |out| == |at| && (|at| <= max || |at| <= 1)
    && (forall k :: 0 <= k < |at| ==> at[k] < |ledger| && Tells(v, since, ledger[at[k]], out[k]))
    && (forall j, k :: 0 <= j < k < |at| ==> at[j] < at[k])
    && (forall i, e :: 0 <= i < |ledger| && i !in at && Tells(v, since, ledger[i], e) ==>
          |at| >= max && |at| >= 1 && i > at[|at| - 1])
  }

  lemma RedactedTells(v: Reader, since: int, r: Record, e: Emitted)
    ensures Redacted(v, r) == Some(e) && since < r.seqno <==> Tells(v, since, r, e)
  {
    ConcernedIs(r.event.payload);
  }

  function Waiting(see: Sight, since: int): Record -> bool {
    (r: Record) => see(r).Some? && since < r.seqno
  }

  lemma {:induction false} AfterKeeps(ledger: seq<Record>, see: Sight, since: int) returns (at: seq<nat>)
    ensures Keeps(ledger, Waiting(see, since), at) && Picked(ledger, at, After(ledger, see, since))
    decreases |ledger|
  {
    if ledger == [] {
      at := [];
    } else {
      var n := |ledger| - 1;
      var front, r := ledger[..n], ledger[n];
      assert front + [r] == ledger;
      var before := AfterKeeps(front, see, since);
      at := if Waiting(see, since)(r) then before + [n] else before;
      KeepsSnoc(front, r, Waiting(see, since), before);
      PickedSnoc(front, r, before, After(front, see, since));
    }
  }

  lemma NoneSkipped(ledger: seq<Record>, v: Reader, since: int, whole: seq<nat>, at: seq<nat>, i: nat, e: Emitted)
    requires Keeps(ledger, Waiting(SightOf(v), since), whole) && at <= whole
    requires i < |ledger| && i !in at && Tells(v, since, ledger[i], e)
    ensures |at| < |whole| && (at != [] ==> at[|at| - 1] < i)
  {
    RedactedTells(v, since, ledger[i], e);
    assert Waiting(SightOf(v), since)(ledger[i]) && i in whole;
    NotTaken(whole, at, i);
  }

  lemma EnvelopesTell(ledger: seq<Record>, v: Reader, since: int, max: int, out: seq<Emitted>)
    requires Envelopes(SightOf(v), Capped(After(ledger, SightOf(v), since), max), out)
    ensures exists at :: ReceivedAt(ledger, v, since, max, out, at)
  {
    var whole := AfterKeeps(ledger, SightOf(v), since);
    var at := if |whole| <= Cap(max) then whole else whole[..Cap(max)];
    forall k | 0 <= k < |at| ensures at[k] < |ledger| && Tells(v, since, ledger[at[k]], out[k]) {
      TellsTaken(ledger, v, since, max, out, whole, k);
    }
    forall i, e | 0 <= i < |ledger| && i !in at && Tells(v, since, ledger[i], e)
      ensures |at| >= max && |at| >= 1 && i > at[|at| - 1]
    {
      NoneSkipped(ledger, v, since, whole, at, i, e);
    }
    assert ReceivedAt(ledger, v, since, max, out, at);
  }

  lemma TellsTaken(ledger: seq<Record>, v: Reader, since: int, max: int, out: seq<Emitted>, whole: seq<nat>, k: nat)
    requires Keeps(ledger, Waiting(SightOf(v), since), whole)
    requires Picked(ledger, whole, After(ledger, SightOf(v), since))
    requires Envelopes(SightOf(v), Capped(After(ledger, SightOf(v), since), max), out) && k < |out|
    ensures k < |whole| && whole[k] < |ledger| && Tells(v, since, ledger[whole[k]], out[k])
  {
    assert Waiting(SightOf(v), since)(ledger[whole[k]]);
    RedactedTells(v, since, ledger[whole[k]], out[k]);
  }

  lemma NotTaken(whole: seq<nat>, at: seq<nat>, i: nat)
    requires at <= whole && i in whole && i !in at && forall j, k :: 0 <= j < k < |whole| ==> whole[j] < whole[k]
    ensures |at| < |whole| && (at != [] ==> at[|at| - 1] < i)
  {
    var k :| 0 <= k < |whole| && whole[k] == i;
    assert forall n :: 0 <= n < |at| ==> at[n] == whole[n] && at[n] in at;
  }

  /** The envelopes of the first records after a number that the reader may see, up to the cap. */
  method AuthorizedEvents(ledger: seq<Record>, v: Reader, since: int, max: int) returns (out: seq<Emitted>)
    ensures exists at :: ReceivedAt(ledger, v, since, max, out, at)
    ensures Envelopes(SightOf(v), Capped(After(ledger, SightOf(v), since), max), out)
  {
    out := Tail(ledger, SightOf(v), since, max);
    EnvelopesTell(ledger, v, since, max, out);
  }

  /******* Resuming *******/

  /** Records are numbered in ascending order. */
  ghost predicate Ascending(ledger: seq<Record>) {
    forall i, j :: 0 <= i < j < |ledger| ==> ledger[i].seqno < ledger[j].seqno
  }

  /** The number a reader resumes from: the greatest it has seen. */
  function Resume(since: int, out: seq<Record>): int
    decreases |out|
  {
    if out == [] then since
    else
      var front := Resume(since, out[..|out| - 1]);
      if out[|out| - 1].seqno > front then out[|out| - 1].seqno else front
  }

  /** What a reader has received, and the number it resumes from. */
  datatype Received = Received(records: seq<Record>, since: int)

  /** One poll of the ledger as it is now. */
  function Poll(s: Received, ledger: seq<Record>, see: Sight, max: int): Received {
    var out := Capped(After(ledger, see, s.since), max);
    Received(s.records + out, Resume(s.since, out))
  }

  /** Polls of a growing ledger by a reader whose view of the objects grows with it. */
  function Polls(start: int, ledgers: seq<seq<Record>>, readers: seq<Reader>, max: int): Received
    requires |readers| == |ledgers|
    decreases |ledgers|
  {
    if ledgers == [] then Received([], start)
    else
      var n := |ledgers| - 1;
      Poll(Polls(start, ledgers[..n], readers[..n], max), ledgers[n], SightOf(readers[n]), max)
  }

  /** At every poll the reader sees of each record what it always sees of it. */
  ghost predicate SeesAlike(ledgers: seq<seq<Record>>, readers: seq<Reader>, see: Sight) {
    |readers| == |ledgers| &&
    forall i, r :: 0 <= i < |ledgers| && r in ledgers[i] ==> Redacted(readers[i], r) == see(r)
  }

  lemma {:induction false} AfterAlike(ledger: seq<Record>, see: Sight, also: Sight, low: int)
    requires forall r :: r in ledger ==> see(r) == also(r)
    ensures After(ledger, see, low) == After(ledger, also, low)
    decreases |ledger|
  {
    if ledger != [] {
      AfterAlike(ledger[..|ledger| - 1], see, also, low);
    }
  }

  ghost predicate Growing(ledgers: seq<seq<Record>>) {
    && (forall i :: 0 <= i < |ledgers| ==> Ascending(ledgers[i]))
    && (forall i, j :: 0 <= i <= j < |ledgers| ==> ledgers[i] <= ledgers[j])
  }

  lemma {:induction false} BetweenIn(ledger: seq<Record>, see: Sight, low: int, high: int)
    ensures forall r :: r in Between(ledger, see, low, high) <==> r in ledger && see(r).Some? && low < r.seqno <= high
    decreases |ledger|
  {
    if ledger != [] {
      BetweenIn(ledger[..|ledger| - 1], see, low, high);
      assert ledger == ledger[..|ledger| - 1] + [ledger[|ledger| - 1]];
    }
  }

  /** In an ascending ledger, the records above a number split at any later number. */
  lemma {:induction false} BetweenJoins(ledger: seq<Record>, see: Sight, low: int, mid: int, high: int)
    requires Ascending(ledger) && low <= mid <= high
    ensures Between(ledger, see, low, high) == Between(ledger, see, low, mid) + Between(ledger, see, mid, high)
    decreases |ledger|
  {
    if ledger != [] {
      var front, r := ledger[..|ledger| - 1], ledger[|ledger| - 1];
      BetweenJoins(front, see, low, mid, high);
      if r.seqno <= mid {
        BetweenNone(front, see, mid, high);
      }
    }
  }

  lemma {:induction false} BetweenNone(ledger: seq<Record>, see: Sight, low: int, high: int)
    requires forall r :: r in ledger ==> r.seqno <= low || high < r.seqno
    ensures Between(ledger, see, low, high) == []
    decreases |ledger|
  {
    if ledger != [] {
      BetweenNone(ledger[..|ledger| - 1], see, low, high);
    }
  }

  lemma {:induction false} AfterAscends(ledger: seq<Record>, see: Sight, low: int)
    requires Ascending(ledger)
    ensures Ascending(After(ledger, see, low))
    decreases |ledger|
  {
    if ledger != [] {
      AfterAscends(ledger[..|ledger| - 1], see, low);
      AfterIn(ledger[..|ledger| - 1], see, low);
      forall r | r in ledger[..|ledger| - 1] ensures r.seqno < ledger[|ledger| - 1].seqno {
      }
    }
  }

  function LastNumber(low: int, rs: seq<Record>): int {
    if rs == [] then low else rs[|rs| - 1].seqno
  }

  lemma {:induction false} ResumeIsLast(low: int, rs: seq<Record>)
    requires Ascending(rs) && forall r :: r in rs ==> low < r.seqno
    ensures Resume(low, rs) == LastNumber(low, rs)
    decreases |rs|
  {
    if rs != [] {
      ResumeIsLast(low, rs[..|rs| - 1]);
    }
  }

  lemma {:induction false} AllBetween(ledger: seq<Record>, see: Sight, low: int, high: int)
    requires forall r :: r in ledger ==> r.seqno <= high
    ensures Between(ledger, see, low, high) == After(ledger, see, low)
    decreases |ledger|
  {
    if ledger != [] {
      AllBetween(ledger[..|ledger| - 1], see, low, high);
    }
  }

  /** The first visible records after a number are those up to the number of the last of them. */
  lemma {:induction false} FirstAreBetween(ledger: seq<Record>, see: Sight, low: int, n: nat)
    requires Ascending(ledger) && n <= |After(ledger, see, low)|
    ensures var first := After(ledger, see, low)[..n]; Between(ledger, see, low, LastNumber(low, first)) == first
    decreases |ledger|
  {
    if ledger != [] {
      var front, r := ledger[..|ledger| - 1], ledger[|ledger| - 1];
      var before := After(front, see, low);
      if n <= |before| {
        FirstAreBetween(front, see, low, n);
        assert After(ledger, see, low)[..n] == before[..n];
        AfterIn(front, see, low);
        if n > 0 {
          assert before[n - 1] in before;
        }
      } else {
        AllBetween(front, see, low, r.seqno);
        assert After(ledger, see, low)[..n] == before + [r];
      }
    }
  }

  lemma {:induction false} BetweenGrows(ledger: seq<Record>, more: seq<Record>, see: Sight, low: int, high: int)
    requires forall r :: r in more ==> high < r.seqno || high <= low
    ensures Between(ledger + more, see, low, high) == Between(ledger, see, low, high)
    decreases |more|
  {
    if more == [] {
      assert ledger + more == ledger;
    } else {
      assert (ledger + more)[..|ledger + more| - 1] == ledger + more[..|more| - 1];
      BetweenGrows(ledger, more[..|more| - 1], see, low, high);
    }
  }

  /** The reader holds the visible records numbered from the start up to where it resumes, and resumes at a
      record of the ledger or at the start. */
  ghost predicate Holds(start: int, ledger: seq<Record>, see: Sight, s: Received) {
    && start <= s.since
    && s.records == Between(ledger, see, start, s.since)
    && (s.since == start || exists r :: r in ledger && r.seqno == s.since)
  }

  lemma HoldsOnGrowth(start: int, ledger: seq<Record>, longer: seq<Record>, see: Sight, s: Received)
    requires Holds(start, ledger, see, s) && ledger <= longer && Ascending(longer)
    ensures Holds(start, longer, see, s)
  {
    var more := longer[|ledger|..];
    assert longer == ledger + more;
    if s.since != start {
      var r :| r in ledger && r.seqno == s.since;
      var i :| 0 <= i < |ledger| && ledger[i] == r;
      assert longer[i] == r;
      forall m | m in more ensures s.since < m.seqno {
        var j :| 0 <= j < |more| && more[j] == m;
        assert longer[|ledger| + j] == m;
      }
    }
    BetweenGrows(ledger, more, see, start, s.since);
  }

  lemma PollHolds(start: int, ledger: seq<Record>, see: Sight, s: Received, max: int)
    requires Holds(start, ledger, see, s) && Ascending(ledger)
    ensures Holds(start, ledger, see, Poll(s, ledger, see, max))
    ensures |After(ledger, see, s.since)| <= Cap(max) ==> Poll(s, ledger, see, max).records == After(ledger, see, start)
  {
    var all := After(ledger, see, s.since);
    var out := Capped(all, max);
    var n := |out|;
    assert out == all[..n];
    AfterAscends(ledger, see, s.since);
    AfterIn(ledger, see, s.since);
    forall r | r in out ensures r in ledger && s.since < r.seqno {
      assert r in all;
    }
    ResumeIsLast(s.since, out);
    FirstAreBetween(ledger, see, s.since, n);
    var next := LastNumber(s.since, out);
    if n > 0 {
      assert out[n - 1] in out;
    }
    BetweenJoins(ledger, see, start, s.since, next);
    if |all| <= Cap(max) {
      EverythingReceived(ledger, see, start, s.since);
    }
  }

  /** What is not above a number and what is above it are everything. */
  lemma {:induction false} EverythingReceived(ledger: seq<Record>, see: Sight, low: int, mid: int)
    requires Ascending(ledger) && low <= mid
    ensures After(ledger, see, low) == Between(ledger, see, low, mid) + After(ledger, see, mid)
    decreases |ledger|
  {
    if ledger != [] {
      var front, r := ledger[..|ledger| - 1], ledger[|ledger| - 1];
      EverythingReceived(front, see, low, mid);
      if r.seqno <= mid {
        AfterIn(front, see, mid);
        NoneAfter(front, see, mid);
      }
    }
  }

  lemma {:induction false} NoneAfter(ledger: seq<Record>, see: Sight, low: int)
    requires forall r :: r in ledger ==> r.seqno <= low
    ensures After(ledger, see, low) == []
    decreases |ledger|
  {
    if ledger != [] {
      NoneAfter(ledger[..|ledger| - 1], see, low);
    }
  }

  /** Resumption is exactly-once: over any polls of a growing ledger, with the readability of its events
      fixed, what was received is, in ledger order, exactly the visible records from the start up to where
      the reader resumes; and once a poll finds no more than the cap, it is all of them. */
  lemma {:induction false} ExactlyOnce(start: int, ledgers: seq<seq<Record>>, readers: seq<Reader>, see: Sight,
                                       max: int)
    requires Growing(ledgers) && ledgers != [] && SeesAlike(ledgers, readers, see)
    ensures Holds(start, ledgers[|ledgers| - 1], see, Polls(start, ledgers, readers, max))
    ensures var n := |ledgers| - 1;
            var before := Polls(start, ledgers[..n], readers[..n], max);
            |After(ledgers[n], see, before.since)| <= Cap(max) ==>
              Polls(start, ledgers, readers, max).records == After(ledgers[n], see, start)
    decreases |ledgers|
  {
    var n := |ledgers| - 1;
    var front, now := ledgers[..n], ledgers[n];
    var before := Polls(start, front, readers[..n], max);
    if front == [] {
      BetweenNone(now, see, start, start);
    } else {
      ExactlyOnce(start, front, readers[..n], see, max);
      HoldsOnGrowth(start, front[|front| - 1], now, see, before);
    }
    PollHolds(start, now, see, before, max);
    AfterAlike(now, SightOf(readers[n]), see, before.since);
  }

  /******* The activity feed *******/

  function Least(a: int, b: int): (r: int)
    ensures r <= a && r <= b && (r == a || r == b)
  {
    if a <= b then a else b
  }

  /** The slice from the n-th last element on: everything for zero, and without the first ones for a
      negative number. */
  function FromEnd(rs: seq<Record>, n: int): seq<Record> {
    if n > 0 then (if n >= |rs| then rs else rs[|rs| - n..])
    else if -n >= |rs| then [] else rs[-n..]
  }

  function Reversed(rs: seq<Record>): (r: seq<Record>)
    ensures |r| == |rs| && forall i :: 0 <= i < |rs| ==> r[i] == rs[|rs| - 1 - i]
  {
    if rs == [] then [] else [rs[|rs| - 1]] + Reversed(rs[..|rs| - 1])
  }

  /** The last records, newest first. */
  function Newest(rs: seq<Record>, n: nat): seq<Record> {
    Reversed(if n >= |rs| then rs else rs[|rs| - n..])
  }

  /** What the activity feed shows of the capped events. */
  function Activity(ledger: seq<Record>, see: Sight, since: int, limit: int): seq<Record> {
    Reversed(FromEnd(Capped(After(ledger, see, since), MAX_EVENTS), Least(limit, MAX_ACTIVITY)))
  }

  /** For every limit of at least one, the feed shows the newest events, as many as the smaller of the limit
      and 200, exactly while at most 500 are visible. */
  lemma ActivityIsNewest(ledger: seq<Record>, see: Sight, since: int, limit: int)
    requires Ascending(ledger) && limit >= 1
    ensures Activity(ledger, see, since, limit) == Newest(After(ledger, see, since), Least(limit, MAX_ACTIVITY)) <==>
            |After(ledger, see, since)| <= MAX_EVENTS
  {
    AfterAscends(ledger, see, since);
    CapDecides(After(ledger, see, since), Least(limit, MAX_ACTIVITY));
  }

  lemma LastShown(rs: seq<Record>, n: int)
    requires n >= 1 && rs != []
    ensures Reversed(FromEnd(rs, n)) != [] && Reversed(FromEnd(rs, n))[0] == rs[|rs| - 1]
  {
    var shown := FromEnd(rs, n);
    assert shown != [] && shown[|shown| - 1] == rs[|rs| - 1];
  }

  lemma CutShows(all: seq<Record>, max: nat, n: int)
    requires Ascending(all) && n >= 1 && 1 <= max < |all|
    ensures Reversed(FromEnd(all[..max], n)) != Reversed(FromEnd(all, n))
  {
    LastShown(all, n);
    LastShown(all[..max], n);
    assert all[max - 1].seqno < all[|all| - 1].seqno;
  }

  lemma CapDecides(all: seq<Record>, n: int)
    requires Ascending(all) && n >= 1
    ensures Reversed(FromEnd(Capped(all, MAX_EVENTS), n)) == Newest(all, n) <==> |all| <= MAX_EVENTS
  {
    assert Newest(all, n) == Reversed(FromEnd(all, n));
    if |all| > MAX_EVENTS {
      assert Capped(all, MAX_EVENTS) == all[..MAX_EVENTS];
      CutShows(all, MAX_EVENTS, n);
    }
  }

  /** How many events the feed shows: a limit of zero or less escapes the bound of 200. */
  lemma ActivityLength(ledger: seq<Record>, see: Sight, since: int, limit: int)
    ensures var visible := Least(|After(ledger, see, since)|, MAX_EVENTS);
            |Activity(ledger, see, since, limit)| ==
            if limit >= 1 then Least(visible, Least(limit, MAX_ACTIVITY))
            else if visible + limit >= 0 then visible + limit else 0
  {
  }

  /******* Which events concern an object *******/

  lemma {:induction false} TextAtFirst(fields: seq<Field>, key: string, i: nat)
    requires i < |fields| && fields[i].key == key && forall j :: 0 <= j < i ==> fields[j].key != key
    ensures TextAt(fields, key) == if fields[i].value.Str? then Some(fields[i].value.s) else None
  {
    if i > 0 {
      TextAtFirst(fields[1..], key, i - 1);
    }
  }

  lemma {:induction false} TextAtNowhere(fields: seq<Field>, key: string)
    requires forall j :: 0 <= j < |fields| ==> fields[j].key != key
    ensures TextAt(fields, key) == None
  {
    if fields != [] {
      TextAtNowhere(fields[1..], key);
    }
  }

  lemma FirstOfFour(fields: seq<Field>)
    ensures FirstText(fields, ["claim_id", "object_id", "obj_id", "id"]) ==
            if TextAt(fields, "claim_id").Some? then TextAt(fields, "claim_id")
            else if TextAt(fields, "object_id").Some? then TextAt(fields, "object_id")
            else if TextAt(fields, "obj_id").Some? then TextAt(fields, "obj_id")
            else TextAt(fields, "id")
  {
    var keys := ["claim_id", "object_id", "obj_id", "id"];
    assert keys[1..] == ["object_id", "obj_id", "id"];
    assert keys[1..][1..] == ["obj_id", "id"];
    assert keys[1..][1..][1..] == ["id"];
    assert keys[1..][1..][1..][1..] == [];
  }

  lemma WholeHasId(o: Obj)
    ensures TextAt(ObjJson(o).fields, "id") == Some(o.id)
  {
    TextAtFirst(ObjJson(o).fields, "id", 0);
  }

  lemma WholeClaim(o: Obj)
    ensures TextAt(ObjJson(o).fields, "claim_id") == o.body.claimId
  {
    var fields := ObjJson(o).fields;
    assert fields[19] == Field("claim_id", OptStr(o.body.claimId));
    TextAtFirst(fields, "claim_id", 19);
  }

  lemma WholeLacksObjectId(o: Obj)
    ensures TextAt(ObjJson(o).fields, "object_id") == None
  {
    TextAtNowhere(ObjJson(o).fields, "object_id");
  }

  lemma WholeLacksObjId(o: Obj)
    ensures TextAt(ObjJson(o).fields, "obj_id") == None
  {
    TextAtNowhere(ObjJson(o).fields, "obj_id");
  }

  lemma ConcernedByWhole(o: Obj)
    ensures Concerned(Whole(o)) == if o.body.claimId.Some? then o.body.claimId else Some(o.id)
  {
    WholeHasId(o);
    WholeClaim(o);
    WholeLacksObjectId(o);
    WholeLacksObjId(o);
    FirstOfFour(ObjJson(o).fields);
  }

  lemma ConcernedByNone(fields: seq<Field>)
    requires forall j :: 0 <= j < |fields| ==> fields[j].key !in ["claim_id", "object_id", "obj_id", "id"]
    ensures FirstText(fields, ["claim_id", "object_id", "obj_id", "id"]) == None
  {
    TextAtNowhere(fields, "claim_id");
    TextAtNowhere(fields, "object_id");
    TextAtNowhere(fields, "obj_id");
    TextAtNowhere(fields, "id");
    FirstOfFour(fields);
  }

  lemma ConcernedByFirst(fields: seq<Field>, key: string, id: Id)
    requires fields != [] && fields[0] == Field(key, Str(id)) && (key == "claim_id" || key == "object_id")
    requires forall j :: 0 <= j < |fields| ==> fields[j].key == "claim_id" ==> j == 0
    ensures FirstText(fields, ["claim_id", "object_id", "obj_id", "id"]) == Some(id)
  {
    TextAtFirst(fields, key, 0);
    if key == "object_id" {
      TextAtNowhere(fields, "claim_id");
    }
    FirstOfFour(fields);
  }

  /** Events that close or confirm a fact, record a contradiction, merge or split entities or revoke a grant
      concern no object, and so reach neither the stream nor the feed; all others concern the claim they
      name, or else the object they carry or place. */
  lemma ConcernedIs(p: Payload)
    ensures Concerned(p) ==
            match p {
              case Whole(o) => if o.body.claimId.Some? then o.body.claimId else Some(o.id)
              case Place(id, _, _, _, _) => Some(id)
              case ClaimClosed(id, _, _, _) => Some(id)
              case Attach(id, _, _) => Some(id)
              case Govern(id, _) => Some(id)
              case _ => None
            }
  {
    match p
    case Whole(o) => ConcernedByWhole(o);
    case Place(id, _, _, _, _) => ConcernedByFirst(PayloadJson(p).fields, "object_id", id);
    case ClaimClosed(id, _, _, _) => ConcernedByFirst(PayloadJson(p).fields, "claim_id", id);
    case Attach(id, _, _) => ConcernedByFirst(PayloadJson(p).fields, "claim_id", id);
    case Govern(id, _) => ConcernedByFirst(PayloadJson(p).fields, "claim_id", id);
    case _ => ConcernedByNone(PayloadJson(p).fields);
  }

  /** Such events are seen by nobody, whatever may be read; of all others the reader sees exactly those of
      its scope whose object exists and may be read. */
  lemma SeenIs(v: Reader, r: Record)
    ensures Redacted(v, r).Some? <==>
            && r.event.tenant == v.tenant && r.event.namespace == v.namespace
            && (r.event.payload.Whole? || r.event.payload.Place? || r.event.payload.ClaimClosed? ||
                r.event.payload.Attach? || r.event.payload.Govern?)
            && Concerned(r.event.payload).Some?
            && Concerned(r.event.payload).value in v.objs
            && v.canRead(v.objs[Concerned(r.event.payload).value])
  {
    ConcernedIs(r.event.payload);
  }
}
