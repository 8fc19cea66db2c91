/** Any run of nested, failing and caught transactions: when the objects are the replay of the ledger. */
module Transactions {
  import opened Model
  import opened Projection
  import opened Ledger
  import opened Store

  /** What the code using the store does: open a block, emit, raise some other exception, leave
      the innermost block (an exception in flight leaves it raising), or catch the exception. */
  datatype Command = Begin | Emission(event: Event) | Raise | End | Catch

  /** `raising` is an exception in flight; `broken` says that an emission raised after its record
      was appended and the record is still in the ledger. */
  datatype Session = Session(store: State, raising: bool, broken: bool, snapBroken: bool)

  function Step(h: Hash, s: Session, c: Command): (r: Session)
    requires WellNested(s.store)
    ensures WellNested(r.store)
  {
    match c
    case Begin =>
      if s.raising then s
      else s.(store := Entered(s.store),
              snapBroken := if s.store.depth == 0 then s.broken else s.snapBroken)
    case Emission(e) =>
      if s.raising || s.store.depth == 0 then s
      else
        var (store, ok) := Emitted(h, s.store, e);
        s.(store := store, raising := !ok, broken := s.broken || !ok)
    case Raise =>
      if s.store.depth == 0 then s else s.(raising := true)
    case End =>
      if s.store.depth == 0 then s
      else s.(store := Left(s.store, s.raising),
              broken := if s.raising && s.store.depth == 1 then s.snapBroken else s.broken)
    case Catch => s.(raising := false)
  }

  function Run(h: Hash, commands: seq<Command>): (s: Session)
    ensures WellNested(s.store)
    decreases |commands|
  {
    if commands == [] then Session(EMPTY, false, false, false)
    else Step(h, Run(h, commands[..|commands| - 1]), commands[|commands| - 1])
  }

  lemma RunSnoc(h: Hash, commands: seq<Command>, c: Command)
    ensures Run(h, commands + [c]) == Step(h, Run(h, commands), c)
  {
    assert (commands + [c])[..|commands|] == commands;
  }

  /** The objects of a ledger, and whether it still replays. */
  ghost predicate Mirrors(ledger: seq<Record>, objs: Objects, broken: bool) {
    Replay(ledger) == if broken then None else Some(objs)
  }

  ghost predicate Sound(h: Hash, s: Session) {
    && WellNested(s.store)
    && Chain(h, s.store.ledger)
    && Mirrors(s.store.ledger, s.store.objects, s.broken)
    && (s.store.depth > 0 ==>
          Mirrors(s.store.ledger[..s.store.snapLedger], s.store.snapObjects.value, s.snapBroken))
  }

  /** An emission that raises makes the ledger unreplayable; after one that did, it stays so. */
  lemma EmissionMirrors(ledger: seq<Record>, objs: Objects, broken: bool, r: Record)
    requires Mirrors(ledger, objs, broken)
    ensures Mirrors(ledger + [r], Apply(objs, r.event).objects, broken || !Apply(objs, r.event).ok)
  {
    ReplaySnoc(ledger, r);
  }

  lemma EmissionSound(h: Hash, s: Session, e: Event)
    requires Sound(h, s) && s.store.depth > 0 && !s.raising
    ensures Sound(h, Step(h, s, Emission(e)))
  {
    var n := s.store.ledger;
    var r := Seal(h, |n| + 1, e, Head(n));
    AppendKeepsChain(h, n, e);
    EmissionMirrors(n, s.store.objects, s.broken, r);
    SnapshotStays(n, r, s.store.snapLedger);
  }

  lemma SnapshotStays(ledger: seq<Record>, r: Record, n: nat)
    requires n <= |ledger|
    ensures (ledger + [r])[..n] == ledger[..n]
  {
  }

  lemma EndSound(h: Hash, s: Session)
    requires Sound(h, s) && s.store.depth > 0
    ensures Sound(h, Step(h, s, End))
  {
    PrefixIsChain(h, s.store.ledger, s.store.snapLedger);
  }

  lemma StepSound(h: Hash, s: Session, c: Command)
    requires Sound(h, s)
    ensures Sound(h, Step(h, s, c))
  {
    match c
    case Begin => assert s.store.ledger[..|s.store.ledger|] == s.store.ledger;
    case Emission(e) =>
      if s.store.depth > 0 && !s.raising {
        EmissionSound(h, s, e);
      }
    case End =>
      if s.store.depth > 0 {
        EndSound(h, s);
      }
    case _ =>
  }

  /** In every state of every run the ledger is a valid chain, and it replays to the objects
      exactly when it holds no record whose projection raised. */
  lemma {:induction false} ProjectionIsReplay(h: Hash, commands: seq<Command>)
    ensures var s := Run(h, commands);
            && Sound(h, s)
            && (Replay(s.store.ledger) == Some(s.store.objects) <==> !s.broken)
    decreases |commands|
  {
    if commands != [] {
      ProjectionIsReplay(h, commands[..|commands| - 1]);
      StepSound(h, Run(h, commands[..|commands| - 1]), commands[|commands| - 1]);
    } else {
      assert Session(EMPTY, false, false, false).store.ledger == [];
    }
  }

  /** No exception is caught while a transaction is open: it always reaches the outermost block. */
  ghost predicate Propagates(h: Hash, commands: seq<Command>) {
    forall n :: 0 <= n < |commands| && commands[n].Catch? ==>
      Run(h, commands[..n]).store.depth == 0 || !Run(h, commands[..n]).raising
  }

  lemma {:induction false} PropagatingKeeps(h: Hash, commands: seq<Command>)
    requires Propagates(h, commands)
    ensures var s := Run(h, commands);
            !s.snapBroken && (s.broken ==> s.raising && s.store.depth > 0)
    decreases |commands|
  {
    if commands != [] {
      var n := |commands| - 1;
      var front := commands[..n];
      assert forall k :: 0 <= k < n ==> front[k] == commands[k] && front[..k] == commands[..k];
      PropagatingKeeps(h, front);
      PropagatingStep(h, Run(h, front), commands[n]);
    }
  }

  lemma PropagatingStep(h: Hash, s: Session, c: Command)
    requires WellNested(s.store) && !s.snapBroken && (s.broken ==> s.raising && s.store.depth > 0)
    requires c.Catch? ==> s.store.depth == 0 || !s.raising
    ensures !Step(h, s, c).snapBroken
    ensures Step(h, s, c).broken ==> Step(h, s, c).raising && Step(h, s, c).store.depth > 0
  {
  }

  /** When failures propagate out of the outermost transaction, every closed state holds exactly
      the objects its ledger replays to, whatever failed on the way. */
  lemma ClosedStoreIsReplay(h: Hash, commands: seq<Command>)
    requires Propagates(h, commands) && Run(h, commands).store.depth == 0
    ensures var s := Run(h, commands).store;
            Chain(h, s.ledger) && Replay(s.ledger) == Some(s.objects)
  {
    ProjectionIsReplay(h, commands);
    PropagatingKeeps(h, commands);
  }

  /** Inside two open transactions, an emission whose projection raises has already appended its record. */
  lemma TornEmission(h: Hash, e: Event)
    requires e.payload.FactClosed?
    ensures var torn := Run(h, [Begin, Begin] + [Emission(e)]);
            torn.store.ledger == [Seal(h, 1, e, GENESIS)] && torn.store.depth == 2 && torn.raising
  {
    assert !Apply(map[], e).ok;
    assert [] + [Begin] == [Begin] && [Begin] + [Begin] == [Begin, Begin];
    RunSnoc(h, [], Begin);
    RunSnoc(h, [Begin], Begin);
    RunSnoc(h, [Begin, Begin], Emission(e));
  }

  /** Catching the failure of an emission inside an outer transaction commits a record that can
      never be replayed. */
  lemma CaughtFailureBreaksReplay(h: Hash, e: Event)
    requires e.payload.FactClosed?
    ensures var s := Run(h, [Begin, Begin, Emission(e), End, Catch, End]).store;
            s.depth == 0 && |s.ledger| == 1 && Replay(s.ledger).None?
  {
    var three := [Begin, Begin] + [Emission(e)];
    TornEmission(h, e);
    RunSnoc(h, three, End);
    RunSnoc(h, three + [End], Catch);
    RunSnoc(h, three + [End] + [Catch], End);
    assert three + [End] + [Catch] + [End] == [Begin, Begin, Emission(e), End, Catch, End];
    ProjectionIsReplay(h, [Begin, Begin, Emission(e), End, Catch, End]);
  }
}
