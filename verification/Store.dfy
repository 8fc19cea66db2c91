/** The store with its nested transactions, and what emitted events do to it. */
module Store {
  import opened Model
  import opened Projection
  import opened Ledger

  /** What a store holds. */
  datatype State = State(
    ledger: seq<Record>,
    objects: Objects,
    depth: nat,
    snapLedger: nat,
    snapObjects: Option<Objects>)

  const EMPTY := State([], map[], 0, 0, None)

  function Entered(s: State): State {
    if s.depth == 0 then s.(depth := 1, snapLedger := |s.ledger|, snapObjects := Some(s.objects))
    else s.(depth := s.depth + 1)
  }

  /** Leaving a transaction: only the outermost one restores, and only when it raised. */
  function Left(s: State, raised: bool): State
    requires WellNested(s) && s.depth > 0
  {
    if s.depth > 1 then s.(depth := s.depth - 1)
    else if raised then State(s.ledger[..s.snapLedger], s.snapObjects.value, 0, s.snapLedger, None)
    else s.(depth := 0, snapObjects := None)
  }

  /** A record is sealed onto the ledger first and projected next. */
  function Emitted(h: Hash, s: State, e: Event): (State, bool) {
    var r := Seal(h, |s.ledger| + 1, e, Head(s.ledger));
    var a := Apply(s.objects, e);
    (s.(ledger := s.ledger + [r], objects := a.objects), a.ok)
  }

  /** The objects after a list of events, stopping at the first that raises. */
  function Transacted(objs: Objects, events: seq<Event>): Applied
    decreases |events|
  {
    if events == [] then Applied(objs, true)
    else
      var a := Apply(objs, events[0]);
      if a.ok then Transacted(a.objects, events[1..]) else a
  }

  /** The ledger with a list of events sealed onto it one by one. */
  function Extended(h: Hash, ledger: seq<Record>, events: seq<Event>): seq<Record>
    decreases |events|
  {
    if events == [] then ledger
    else Extended(h, ledger + [Seal(h, |ledger| + 1, events[0], Head(ledger))], events[1..])
  }

  lemma {:induction false} ExtendedHolds(h: Hash, ledger: seq<Record>, events: seq<Event>)
    ensures var longer := Extended(h, ledger, events);
            && ledger <= longer && |longer| == |ledger| + |events|
            && forall i :: 0 <= i < |events| ==> longer[|ledger| + i].event == events[i]
    decreases |events|
  {
    if events != [] {
      var r := Seal(h, |ledger| + 1, events[0], Head(ledger));
      ExtendedHolds(h, ledger + [r], events[1..]);
      var longer := Extended(h, ledger, events);
      forall i | 0 <= i < |events| ensures longer[|ledger| + i].event == events[i] {
        if i > 0 {
          assert longer[|ledger + [r]| + (i - 1)].event == events[1..][i - 1];
        } else {
          assert longer[|ledger|] == (ledger + [r])[|ledger|];
        }
      }
    }
  }

  /** Sealing keeps the chain and the old records, adds one record for each event, and replays
      to what the transaction computed. */
  lemma {:induction false} ExtendedIsReplayed(h: Hash, ledger: seq<Record>, events: seq<Event>)
    requires Chain(h, ledger)
    ensures var longer := Extended(h, ledger, events);
            && Chain(h, longer) && ledger <= longer && |longer| == |ledger| + |events|
            && (forall i :: 0 <= i < |events| ==> longer[|ledger| + i].event == events[i])
            && (Replay(ledger).Some? && Transacted(Replay(ledger).value, events).ok ==>
                  Replay(longer) == Some(Transacted(Replay(ledger).value, events).objects))
    decreases |events|
  {
    ExtendedHolds(h, ledger, events);
    if events != [] {
      var r := Seal(h, |ledger| + 1, events[0], Head(ledger));
      AppendKeepsChain(h, ledger, events[0]);
      ReplaySnoc(ledger, r);
      ExtendedIsReplayed(h, ledger + [r], events[1..]);
    }
  }

  /** An open transaction remembers where it started; a closed store remembers nothing. */
  ghost predicate WellNested(s: State) {
    if s.depth == 0 then s.snapObjects.None?
    else s.snapObjects.Some? && s.snapLedger <= |s.ledger|
  }

  class MemoryStore {
    var ledger: seq<Record>
    var objects: Objects
    var depth: nat
    var snapLedger: nat
    var snapObjects: Option<Objects>

    function View(): State
      reads this
    {
      State(ledger, objects, depth, snapLedger, snapObjects)
    }

    constructor ()
      ensures View() == EMPTY
    {
      ledger, objects, depth, snapLedger, snapObjects := [], map[], 0, 0, None;
    }

    method Enter()
      modifies this
      ensures View() == Entered(old(View()))
    {
      if depth == 0 {
        snapLedger := |ledger|;
        snapObjects := Some(objects);
      }
      depth := depth + 1;
    }

    method Leave(raised: bool)
      requires WellNested(View()) && depth > 0
      modifies this
      ensures View() == Left(old(View()), raised)
    {
      var outermost := depth == 1;
      if raised && outermost {
        ledger := ledger[..snapLedger];
        objects := snapObjects.value;
      }
      depth := depth - 1;
      if outermost {
        snapObjects := None;
      }
    }

    method PersistRecord(r: Record)
      modifies this
      ensures View() == old(View()).(ledger := old(ledger) + [r])
    {
      ledger := ledger + [r];
    }

    method PutObject(o: Obj)
      modifies this
      ensures View() == old(View()).(objects := old(objects)[o.id := o])
    {
      objects := objects[o.id := o];
    }

    method ClearProjection()
      modifies this
      ensures View() == old(View()).(objects := map[])
    {
      objects := map[];
    }

    /** The digest and the number the next record must continue from. */
    method HeadLink() returns (prev: Digest, seqno: int)
      ensures prev == Head(ledger)
      ensures ledger == [] ==> seqno == 1
      ensures ledger != [] ==> seqno == ledger[|ledger| - 1].seqno + 1
    {
      if ledger == [] {
        return GENESIS, 1;
      }
      var head := ledger[|ledger| - 1];
      return head.entryHash, head.seqno + 1;
    }
  }

  /** Record numbers of a chain are its positions. */
  lemma ChainNumbers(h: Hash, ledger: seq<Record>)
    requires Chain(h, ledger)
    ensures forall i :: 0 <= i < |ledger| ==> ledger[i].seqno == i + 1
  {
    forall i | 0 <= i < |ledger| ensures ledger[i].seqno == i + 1 {
      ChainAt(h, ledger, i);
    }
  }

  function EventsOf(records: seq<Record>): (es: seq<Event>)
    ensures |es| == |records|
  {
    if records == [] then [] else [records[0].event] + EventsOf(records[1..])
  }

  /** A ledger replays exactly when its first records replay and the events of the others apply in turn to the
      objects of the first, and it replays to what these events make of them. */
  lemma {:induction false} ReplaySplits(first: seq<Record>, others: seq<Record>)
    ensures Replay(first + others) ==
            match Replay(first) {
              case None => None
              case Some(objs) =>
                var a := Transacted(objs, EventsOf(others));
                if a.ok then Some(a.objects) else None
            }
    decreases |others|
  {
    if others == [] {
      assert first + others == first;
    } else {
      assert first + others == (first + [others[0]]) + others[1..];
      ReplaySnoc(first, others[0]);
      ReplaySplits(first + [others[0]], others[1..]);
    }
  }

  lemma NoReplay(records: seq<Record>, n: nat)
    requires n <= |records| && Replay(records[..n]).None?
    ensures Replay(records).None?
  {
    if Replay(records).Some? {
      ReplayPrefix(records, n);
      assert false;
    }
  }
}
