/** The hash chain: sealing, verification, and what an accepted chain rules out. */
module Ledger {
  import opened Model

  // The link of the first record: sixty-four zero digits.
  const GENESIS: Digest := 0

  /** The fields an entry hash commits to. */
  datatype Header = Header(
    seqno: int, ts: Time, op: Op, tenant: string, namespace: string, actor: string,
    principal: Option<string>, contentHash: Digest, prevHash: Digest)

  /** The two kinds of value that are hashed; their JSON forms have different keys. */
  datatype HashInput = Content(op: Op, payload: Payload) | Entry(header: Header)

  /** The hash function over canonical JSON. */
  type Hash = HashInput -> Digest

  function HeaderOf(r: Record): Header {
    Header(r.seqno, r.event.ts, r.event.op, r.event.tenant, r.event.namespace, r.event.actor,
           r.event.principal, r.contentHash, r.prevHash)
  }

  function Seal(h: Hash, seqno: int, event: Event, prev: Digest): Record {
    var content := h(Content(event.op, event.payload));
    var header := Header(seqno, event.ts, event.op, event.tenant, event.namespace, event.actor,
                         event.principal, content, prev);
    Record(seqno, event, content, prev, h(Entry(header)), Dict([]))
  }

  function Head(ledger: seq<Record>): Digest {
    if ledger == [] then GENESIS else ledger[|ledger| - 1].entryHash
  }

  /** A record that continues a chain with this head and this many records. */
  predicate Linked(h: Hash, r: Record, prev: Digest, position: nat) {
    && r.seqno == position + 1
    && r.prevHash == prev
    && h(Content(r.event.op, r.event.payload)) == r.contentHash
    && h(Entry(HeaderOf(r))) == r.entryHash
  }

  ghost predicate Chain(h: Hash, ledger: seq<Record>) {
    ledger == [] ||
    (Chain(h, ledger[..|ledger| - 1]) &&
     Linked(h, ledger[|ledger| - 1], Head(ledger[..|ledger| - 1]), |ledger| - 1))
  }

  /******* Verification *******/

  datatype Fault = SeqGap | ChainBreak | PayloadTampered | HeaderTampered | LengthMismatch | HeadMismatch
  datatype Verdicts = Verified(count: nat) | Refused(at: nat, fault: Fault)

  /** The first check a record fails, in the order they are made. */
  function FirstFault(h: Hash, r: Record, prev: Digest, position: nat): Option<Fault> {
    if r.seqno != position + 1 then Some(SeqGap)
    else if r.prevHash != prev then Some(ChainBreak)
    else if h(Content(r.event.op, r.event.payload)) != r.contentHash then Some(PayloadTampered)
    else if h(Entry(HeaderOf(r))) != r.entryHash then Some(HeaderTampered)
    else None
  }

  /** Accepts exactly the chains, of exactly the expected length and head when those are given;
      otherwise names the first record that breaks the chain and why. */
  method VerifyChain(h: Hash, records: seq<Record>, expectedCount: Option<nat>, expectedHead: Option<Digest>)
    returns (v: Verdicts)
    ensures v.Verified? <==>
      && Chain(h, records)
      && (expectedCount.Some? ==> expectedCount.value == |records|)
      && (expectedHead.Some? ==> expectedHead.value == Head(records))
    ensures v.Verified? ==> v.count == |records|
    ensures v.Refused? && v.at < |records| ==>
      Chain(h, records[..v.at]) &&
      FirstFault(h, records[v.at], Head(records[..v.at]), v.at) == Some(v.fault)
    ensures v.Refused? && v.at >= |records| ==>
      Chain(h, records) && v.at == |records| &&
      v.fault == (if expectedCount.Some? && expectedCount.value != |records| then LengthMismatch else HeadMismatch)
  {
    var prev, expectedSeq, count, lastHash := GENESIS, 1, 0, GENESIS;
    for i := 0 to |records|
      invariant count == i && expectedSeq == i + 1
      invariant prev == lastHash == Head(records[..i])
      invariant Chain(h, records[..i])
    {
      var r := records[i];
      if Chain(h, records) {
        ChainAt(h, records, i);
      }
      if r.seqno != expectedSeq { return Refused(i, SeqGap); }
      if r.prevHash != prev { return Refused(i, ChainBreak); }
      if h(Content(r.event.op, r.event.payload)) != r.contentHash { return Refused(i, PayloadTampered); }
      if h(Entry(HeaderOf(r))) != r.entryHash { return Refused(i, HeaderTampered); }
      ChainSnoc(h, records[..i], r);
      assert records[..i + 1] == records[..i] + [r];
      prev, lastHash := r.entryHash, r.entryHash;
      expectedSeq := expectedSeq + 1;
      count := count + 1;
    }
    assert records[..|records|] == records;
    if expectedCount.Some? && count != expectedCount.value { return Refused(|records|, LengthMismatch); }
    if expectedHead.Some? && lastHash != expectedHead.value { return Refused(|records|, HeadMismatch); }
    return Verified(count);
  }

  /******* Building chains *******/

  lemma ChainSnoc(h: Hash, ledger: seq<Record>, r: Record)
    ensures Chain(h, ledger + [r]) <==> Chain(h, ledger) && Linked(h, r, Head(ledger), |ledger|)
  {
    assert (ledger + [r])[..|ledger|] == ledger;
  }

  /** A record sealed onto a chain gives a chain, with the next number and the event unchanged. */
  lemma AppendKeepsChain(h: Hash, ledger: seq<Record>, event: Event)
    requires Chain(h, ledger)
    ensures var r := Seal(h, |ledger| + 1, event, Head(ledger));
            Chain(h, ledger + [r]) && r.event == event && Head(ledger + [r]) == r.entryHash
  {
    ChainSnoc(h, ledger, Seal(h, |ledger| + 1, event, Head(ledger)));
  }

  lemma {:induction false} PrefixIsChain(h: Hash, ledger: seq<Record>, n: nat)
    requires Chain(h, ledger) && n <= |ledger|
    ensures Chain(h, ledger[..n])
    decreases |ledger|
  {
    if n < |ledger| {
      var front := ledger[..|ledger| - 1];
      assert front[..n] == ledger[..n];
      PrefixIsChain(h, front, n);
    } else {
      assert ledger[..n] == ledger;
    }
  }

  /** Every record of a chain is linked to the records before it. */
  lemma {:induction false} ChainAt(h: Hash, ledger: seq<Record>, i: nat)
    requires Chain(h, ledger) && i < |ledger|
    ensures Linked(h, ledger[i], Head(ledger[..i]), i)
  {
    PrefixIsChain(h, ledger, i + 1);
    assert ledger[..i + 1][..i] == ledger[..i];
  }

  function Events(ledger: seq<Record>): seq<Event> {
    seq(|ledger|, i requires 0 <= i < |ledger| => ledger[i].event)
  }

  /** The records a predicate selects, in order. */
  function Select(ledger: seq<Record>, keep: Record -> bool): seq<Record>
    decreases |ledger|
  {
    if ledger == [] then []
    else
      var rest, r := Select(ledger[..|ledger| - 1], keep), ledger[|ledger| - 1];
      if keep(r) then rest + [r] else rest
  }

  /** Re-sealing a filtered slice gives a chain of exactly its length carrying exactly its events. */
  method Reseal(h: Hash, selected: seq<Record>) returns (resealed: seq<Record>)
    ensures Chain(h, resealed)
    ensures |resealed| == |selected| && Events(resealed) == Events(selected)
  {
    resealed := [];
    var prev := GENESIS;
    for i := 0 to |selected|
      invariant |resealed| == i && prev == Head(resealed)
      invariant Chain(h, resealed)
      invariant forall j :: 0 <= j < i ==> resealed[j].event == selected[j].event
    {
      var sealed := Seal(h, i + 1, selected[i].event, prev);
      AppendKeepsChain(h, resealed, selected[i].event);
      prev := sealed.entryHash;
      resealed := resealed + [sealed];
    }
  }

  /******* Tamper evidence *******/

  /** Equal in every field but `meta`. */
  predicate Same(a: Record, b: Record) {
    && a.seqno == b.seqno && a.event == b.event
    && a.contentHash == b.contentHash && a.prevHash == b.prevHash && a.entryHash == b.entryHash
  }

  ghost predicate SameRecords(a: seq<Record>, b: seq<Record>) {
    |a| == |b| && forall i :: 0 <= i < |a| ==> Same(a[i], b[i])
  }

  /** Neither the headers nor the contents of two records collide. */
  predicate Apart(h: Hash, a: Record, b: Record) {
    && (h(Entry(HeaderOf(a))) == h(Entry(HeaderOf(b))) ==> HeaderOf(a) == HeaderOf(b))
    && (h(Content(a.event.op, a.event.payload)) == h(Content(b.event.op, b.event.payload)) ==>
          a.event.op == b.event.op && a.event.payload == b.event.payload)
  }

  /** Two ledgers hold no hash collision, and no entry that hashes to the genesis value. */
  ghost predicate CollisionFree(h: Hash, a: seq<Record>, b: seq<Record>) {
    && (forall i, j :: 0 <= i < |a| && 0 <= j < |b| ==> Apart(h, a[i], b[j]))
    && (forall i :: 0 <= i < |a| ==> h(Entry(HeaderOf(a[i]))) != GENESIS)
    && (forall j :: 0 <= j < |b| ==> h(Entry(HeaderOf(b[j]))) != GENESIS)
  }

  /** The head commits to the whole history: accepted chains with equal heads hold the same
      records, unless they exhibit a hash collision. */
  lemma {:induction false} TamperEvident(h: Hash, a: seq<Record>, b: seq<Record>)
    requires Chain(h, a) && Chain(h, b) && Head(a) == Head(b)
    requires CollisionFree(h, a, b)
    ensures SameRecords(a, b)
    decreases |a|
  {
    if a != [] && b != [] {
      var m, n := |a| - 1, |b| - 1;
      assert Apart(h, a[m], b[n]);
      TamperEvident(h, a[..m], b[..n]);
      assert forall i :: 0 <= i < m ==> a[i] == a[..m][i] && b[i] == b[..n][i];
    }
  }

  /** Editing any hashed field of one record is caught: the result is no chain, or (when it was
      the last record) its head is another. */
  lemma EditIsCaught(h: Hash, ledger: seq<Record>, i: nat, forged: Record)
    requires Chain(h, ledger) && i < |ledger| && !Same(forged, ledger[i])
    requires CollisionFree(h, ledger[i := forged], ledger)
    ensures !Chain(h, ledger[i := forged]) || (i == |ledger| - 1 && Head(ledger[i := forged]) != Head(ledger))
  {
    var edited := ledger[i := forged];
    assert edited[i] == forged;
    if Chain(h, edited) && Head(edited) == Head(ledger) {
      TamperEvident(h, edited, ledger);
    }
  }

  /** Removing records from the middle or the front is always caught; removing them from the end
      leaves a chain, told apart only by the expected head. */
  lemma RemovalIsCaught(h: Hash, ledger: seq<Record>, lo: nat, hi: nat)
    requires Chain(h, ledger) && lo < hi <= |ledger| && CollisionFree(h, ledger, ledger)
    ensures var cut := ledger[..lo] + ledger[hi..];
            if hi < |ledger| then !Chain(h, cut) else Chain(h, cut) && Head(cut) != Head(ledger)
  {
    var cut := ledger[..lo] + ledger[hi..];
    if hi < |ledger| {
      assert cut[lo] == ledger[hi];
      ChainAt(h, ledger, hi);
      if Chain(h, cut) {
        ChainAt(h, cut, lo);
        assert false;
      }
    } else {
      assert cut == ledger[..lo];
      PrefixIsChain(h, ledger, lo);
      assert forall i :: 0 <= i < lo ==> cut[i] == ledger[i];
      if Head(cut) == Head(ledger) {
        TamperEvident(h, cut, ledger);
      }
    }
  }
}
