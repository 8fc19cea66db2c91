/** Bitemporal intervals and the choice of the most current fact. */
module Temporal {
  import opened Model

  /** Half-open intervals; an absent bound is infinite. */
  predicate InInterval(t: Time, lo: Option<Time>, hi: Option<Time>) {
    (lo.Some? ==> lo.value <= t) && (hi.Some? ==> t < hi.value)
  }

  predicate ValidAt(f: Obj, t: Time) {
    InInterval(t, f.body.validFrom, f.body.validTo)
  }

  predicate BelievedAt(f: Obj, t: Time) {
    InInterval(t, f.body.txFrom, f.txTo)
  }

  /** Believed "now" means that the belief is still open, whatever the clock says. */
  predicate Believed(f: Obj, atTx: Option<Time>) {
    if atTx.None? then f.txTo.None? else BelievedAt(f, atTx.value)
  }

  predicate Candidate(f: Obj, atTx: Option<Time>, atValid: Option<Time>, believedOnly: bool) {
    (believedOnly ==> Believed(f, atTx)) && (atValid.Some? ==> ValidAt(f, atValid.value))
  }

  /** Keeps, in order, exactly the facts believed and valid as asked. */
  method AsOf(facts: seq<Obj>, atTx: Option<Time>, atValid: Option<Time>, believedOnly: bool)
    returns (kept: seq<Obj>)
    ensures multiset(kept) <= multiset(facts)
    ensures forall f :: f in kept <==> f in facts && Candidate(f, atTx, atValid, believedOnly)
    ensures believedOnly ==> forall f :: f in kept <==> f in facts && Holds(f, atTx, atValid)
    ensures believedOnly ==> kept == Candidates(facts, atTx, atValid)
  {
    kept := [];
    for i := 0 to |facts|
      invariant kept == Kept(facts[..i], atTx, atValid, believedOnly)
    {
      assert facts[..i + 1][..i] == facts[..i];
      var f := facts[i];
      if believedOnly && !Believed(f, atTx) { continue; }
      if atValid.Some? && !ValidAt(f, atValid.value) { continue; }
      kept := kept + [f];
    }
    assert facts[..|facts|] == facts;
    KeptAre(facts, atTx, atValid, believedOnly);
    forall f ensures Candidate(f, atTx, atValid, true) <==> Holds(f, atTx, atValid) {
      CandidateHolds(f, atTx, atValid);
    }
  }

  /** The facts that are believed and valid as asked, in order. */
  function Kept(facts: seq<Obj>, atTx: Option<Time>, atValid: Option<Time>, believedOnly: bool): seq<Obj>
    decreases |facts|
  {
    if facts == [] then []
    else
      var rest := Kept(facts[..|facts| - 1], atTx, atValid, believedOnly);
      var f := facts[|facts| - 1];
      if Candidate(f, atTx, atValid, believedOnly) then rest + [f] else rest
  }

  lemma {:induction false} KeptAre(facts: seq<Obj>, atTx: Option<Time>, atValid: Option<Time>, believedOnly: bool)
    ensures var kept := Kept(facts, atTx, atValid, believedOnly);
            && multiset(kept) <= multiset(facts)
            && (forall f :: f in kept <==> f in facts && Candidate(f, atTx, atValid, believedOnly))
            && (believedOnly ==> kept == Candidates(facts, atTx, atValid))
    decreases |facts|
  {
    if facts != [] {
      KeptAre(facts[..|facts| - 1], atTx, atValid, believedOnly);
      assert facts == facts[..|facts| - 1] + [facts[|facts| - 1]];
    }
  }

  /******* Precedence *******/

  /** A total order on strings, character by character. */
  predicate StringLess(a: string, b: string)
    decreases |a|
  {
    if b == [] then false
    else if a == [] then true
    else a[0] < b[0] || (a[0] == b[0] && StringLess(a[1..], b[1..]))
  }

  lemma {:induction false} StringTotal(a: string, b: string)
    ensures a == b || StringLess(a, b) || StringLess(b, a)
    ensures !(StringLess(a, b) && StringLess(b, a))
    ensures a == b ==> !StringLess(a, b)
    decreases |a|
  {
    if a != [] && b != [] {
      StringTotal(a[1..], b[1..]);
      assert a == [a[0]] + a[1..] && b == [b[0]] + b[1..];
    }
  }

  lemma {:induction false} StringTransitive(a: string, b: string, c: string)
    requires StringLess(a, b) && StringLess(b, c)
    ensures StringLess(a, c)
    decreases |a|
  {
    if a != [] && a[0] == b[0] && b[0] == c[0] {
      StringTransitive(a[1..], b[1..], c[1..]);
    }
  }

  /** Source authority: only sources carry trust, and none across a scope boundary. */
  function SourceTrust(objs: Objects, o: Obj): real {
    if o.body.source.Some? && o.body.source.value != "" && o.body.source.value in objs then
      var src := objs[o.body.source.value];
      if src.kind == Source && src.tenant == o.tenant && src.namespace == o.namespace then src.body.trust else 0.0
    else 0.0
  }

  /** Trust of the backing source, confidence, transaction time, id: in this order. */
  datatype Rank = Rank(trust: real, confidence: real, txFrom: Option<Time>, id: Id)

  function RankOf(f: Obj, trustOf: Obj -> real): Rank {
    Rank(trustOf(f), f.confidence, f.body.txFrom, f.id)
  }

  /** An absent time ranks below every time. */
  predicate TimeLess(a: Option<Time>, b: Option<Time>) {
    b.Some? && (a.None? || a.value < b.value)
  }

  predicate RankLess(a: Rank, b: Rank) {
    if a.trust != b.trust then a.trust < b.trust
    else if a.confidence != b.confidence then a.confidence < b.confidence
    else if a.txFrom != b.txFrom then TimeLess(a.txFrom, b.txFrom)
    else StringLess(a.id, b.id)
  }

  lemma RankTotal(a: Rank, b: Rank)
    ensures a == b || RankLess(a, b) || RankLess(b, a)
    ensures !(RankLess(a, b) && RankLess(b, a))
    ensures a == b ==> !RankLess(a, b)
  {
    StringTotal(a.id, b.id);
  }

  lemma RankTransitive(a: Rank, b: Rank, c: Rank)
    requires RankLess(a, b) && RankLess(b, c)
    ensures RankLess(a, c)
  {
    if a.txFrom == b.txFrom == c.txFrom && StringLess(a.id, b.id) && StringLess(b.id, c.id) {
      StringTransitive(a.id, b.id, c.id);
    }
  }

  /** The first of the greatest elements. */
  function Best(facts: seq<Obj>, trustOf: Obj -> real): Obj
    requires facts != []
    decreases |facts|
  {
    if |facts| == 1 then facts[0]
    else
      var best := Best(facts[..|facts| - 1], trustOf);
      var f := facts[|facts| - 1];
      if RankLess(RankOf(best, trustOf), RankOf(f, trustOf)) then f else best
  }

  function Candidates(facts: seq<Obj>, atTx: Option<Time>, atValid: Option<Time>): seq<Obj>
    decreases |facts|
  {
    if facts == [] then []
    else
      var rest := Candidates(facts[..|facts| - 1], atTx, atValid);
      var f := facts[|facts| - 1];
      if Candidate(f, atTx, atValid, true) then rest + [f] else rest
  }

  /** The most current believed fact; none when the winner says that the relation ended. */
  function ResolveCurrent(facts: seq<Obj>, atValid: Option<Time>, atTx: Option<Time>,
                          trustOf: Obj -> real): Option<Obj> {
    var candidates := Candidates(facts, atTx, atValid);
    if candidates == [] then None
    else
      var best := Best(candidates, trustOf);
      if best.body.target.None? then None else Some(best)
  }

  /** The greatest candidate, where distinct candidates have distinct ids. */
  ghost predicate IsBest(b: Obj, facts: seq<Obj>, trustOf: Obj -> real) {
    b in facts && forall f :: f in facts && f != b ==> RankLess(RankOf(f, trustOf), RankOf(b, trustOf))
  }

  ghost predicate DistinctIds(facts: seq<Obj>) {
    forall f, g :: f in facts && g in facts && f.id == g.id ==> f == g
  }

  lemma {:induction false} BestIsBest(facts: seq<Obj>, trustOf: Obj -> real)
    requires facts != [] && DistinctIds(facts)
    ensures IsBest(Best(facts, trustOf), facts, trustOf)
    decreases |facts|
  {
    if |facts| > 1 {
      var front, f := facts[..|facts| - 1], facts[|facts| - 1];
      assert facts == front + [f];
      BestIsBest(front, trustOf);
      var best := Best(front, trustOf);
      var r := Best(facts, trustOf);
      RankTotal(RankOf(best, trustOf), RankOf(f, trustOf));
      forall g | g in facts && g != r ensures RankLess(RankOf(g, trustOf), RankOf(r, trustOf)) {
        if g in front && g != best && RankLess(RankOf(best, trustOf), RankOf(f, trustOf)) {
          RankTransitive(RankOf(g, trustOf), RankOf(best, trustOf), RankOf(f, trustOf));
        }
      }
    }
  }

  lemma {:induction false} CandidatesAre(facts: seq<Obj>, atTx: Option<Time>, atValid: Option<Time>)
    ensures forall f :: f in Candidates(facts, atTx, atValid) <==> f in facts && Candidate(f, atTx, atValid, true)
    decreases |facts|
  {
    if facts != [] {
      CandidatesAre(facts[..|facts| - 1], atTx, atValid);
      assert facts == facts[..|facts| - 1] + [facts[|facts| - 1]];
    }
  }

  /** The answer does not depend on the order in which the store lists the facts. */
  lemma ResolveIsOrderFree(xs: seq<Obj>, ys: seq<Obj>, atValid: Option<Time>, atTx: Option<Time>, trustOf: Obj -> real)
    requires DistinctIds(xs) && forall f :: f in xs <==> f in ys
    ensures ResolveCurrent(xs, atValid, atTx, trustOf) == ResolveCurrent(ys, atValid, atTx, trustOf)
  {
    CandidatesAre(xs, atTx, atValid);
    CandidatesAre(ys, atTx, atValid);
    var cx, cy := Candidates(xs, atTx, atValid), Candidates(ys, atTx, atValid);
    if cx != [] {
      assert cx[0] in cy;
    }
    if cy != [] {
      assert cy[0] in cx;
    }
    if cx != [] {
      BestIsBest(cx, trustOf);
      BestIsBest(cy, trustOf);
      var bx, best := Best(cx, trustOf), Best(cy, trustOf);
      RankTotal(RankOf(bx, trustOf), RankOf(best, trustOf));
    }
  }

  /******* Who wins, said of the facts alone *******/

  /** The fact `f` has to give way to `b`: a trusted source outranks a rumour, then confidence decides, then the
      later transaction time, then the id. */
  ghost predicate GivesWay(f: Obj, b: Obj, trustOf: Obj -> real) {
    && trustOf(f) <= trustOf(b)
    && (trustOf(f) == trustOf(b) ==> f.confidence <= b.confidence)
    && (trustOf(f) == trustOf(b) && f.confidence == b.confidence ==>
          f.body.txFrom.None? || (b.body.txFrom.Some? && f.body.txFrom.value <= b.body.txFrom.value))
    && (trustOf(f) == trustOf(b) && f.confidence == b.confidence && f.body.txFrom == b.body.txFrom ==>
          ComesBefore(f.id, b.id))
  }

  /** In the order of texts: at the first difference the smaller character, or no character at all, comes first. */
  ghost predicate ComesBefore(a: string, b: string) {
    exists n: nat :: DiffersAt(a, b, n)
  }

  predicate DiffersAt(a: string, b: string, n: nat) {
    n <= |a| && n < |b| && a[..n] == b[..n] && (n == |a| || a[n] < b[n])
  }

  lemma {:induction false} StringLessIff(a: string, b: string)
    ensures StringLess(a, b) <==> ComesBefore(a, b)
    decreases |a|
  {
    if a == [] && b != [] {
      assert DiffersAt(a, b, 0);
    } else if a != [] && b != [] && a[0] != b[0] {
      assert a[0] < b[0] ==> DiffersAt(a, b, 0);
      forall n | 0 < n <= |a| && n <= |b| ensures a[..n] != b[..n] {
        assert a[..n][0] != b[..n][0];
      }
    } else if a != [] && b != [] {
      StringLessIff(a[1..], b[1..]);
      if n: nat :| DiffersAt(a[1..], b[1..], n) {
        assert a[..n + 1] == [a[0]] + a[1..][..n] && b[..n + 1] == [b[0]] + b[1..][..n];
        assert DiffersAt(a, b, n + 1);
      }
      if n: nat :| DiffersAt(a, b, n) {
        assert n > 0;
        assert a[1..][..n - 1] == a[..n][1..] && b[1..][..n - 1] == b[..n][1..];
        assert DiffersAt(a[1..], b[1..], n - 1);
      }
    }
  }

  /** Believed at the asked instant, from its start on and up to before its end, or, when none is asked, still open;
      and valid at the asked instant, if one is asked. */
  predicate Holds(f: Obj, atTx: Option<Time>, atValid: Option<Time>) {
    && (if atTx.None? then f.txTo.None?
        else (f.body.txFrom.Some? ==> f.body.txFrom.value <= atTx.value) &&
             (f.txTo.Some? ==> atTx.value < f.txTo.value))
    && (atValid.Some? ==>
          (f.body.validFrom.Some? ==> f.body.validFrom.value <= atValid.value) &&
          (f.body.validTo.Some? ==> atValid.value < f.body.validTo.value))
  }

  lemma CandidateHolds(f: Obj, atTx: Option<Time>, atValid: Option<Time>)
    ensures Candidate(f, atTx, atValid, true) <==> Holds(f, atTx, atValid)
  {
  }

  /** A fact that holds, and to which every other fact that holds has to give way. */
  ghost predicate Wins(b: Obj, facts: seq<Obj>, atValid: Option<Time>, atTx: Option<Time>, trustOf: Obj -> real) {
    && b in facts && Holds(b, atTx, atValid)
    && forall f :: f in facts && Holds(f, atTx, atValid) && f != b ==> GivesWay(f, b, trustOf)
  }

  /** The answer is the winner, when its statement still has a value; and there is a winner exactly when there is a
      candidate. */
  lemma CurrentWins(facts: seq<Obj>, atValid: Option<Time>, atTx: Option<Time>, trustOf: Obj -> real)
    requires DistinctIds(facts)
    ensures var r := ResolveCurrent(facts, atValid, atTx, trustOf);
            && (r.Some? ==> Wins(r.value, facts, atValid, atTx, trustOf) && r.value.body.target.Some?)
            && (r.None? ==> (forall f :: f in facts ==> !Holds(f, atTx, atValid)) ||
                            exists b :: Wins(b, facts, atValid, atTx, trustOf) && b.body.target.None?)
  {
    var candidates := Candidates(facts, atTx, atValid);
    CandidatesAre(facts, atTx, atValid);
    if candidates != [] {
      var b := Best(candidates, trustOf);
      BestIsBest(candidates, trustOf);
      CandidateHolds(b, atTx, atValid);
      forall f | f in facts && Holds(f, atTx, atValid) && f != b ensures GivesWay(f, b, trustOf) {
        CandidateHolds(f, atTx, atValid);
        assert f in candidates;
        StringLessIff(f.id, b.id);
      }
      assert Wins(b, facts, atValid, atTx, trustOf);
    } else {
      forall f | f in facts ensures !Holds(f, atTx, atValid) {
        CandidateHolds(f, atTx, atValid);
        assert f !in candidates;
      }
    }
  }

  /** The winner is unique. */
  lemma OneWins(b: Obj, c: Obj, facts: seq<Obj>, atValid: Option<Time>, atTx: Option<Time>, trustOf: Obj -> real)
    requires Wins(b, facts, atValid, atTx, trustOf) && Wins(c, facts, atValid, atTx, trustOf)
    ensures b == c
  {
    if b != c {
      StringLessIff(b.id, c.id);
      StringLessIff(c.id, b.id);
      StringTotal(b.id, c.id);
    }
  }

  /** The trust of a fact is that of its source, if this is a source of the fact's own scope. */
  predicate BackedBy(objs: Objects, f: Obj, src: Obj) {
    && f.body.source.Some? && f.body.source.value != "" && f.body.source.value in objs
    && objs[f.body.source.value] == src && src.kind == Source
    && src.tenant == f.tenant && src.namespace == f.namespace
  }

  /** Without such a source there is no trust. */
  ghost predicate Trusts(objs: Objects, f: Obj, trust: real) {
    (forall src :: BackedBy(objs, f, src) ==> trust == src.body.trust) &&
    ((forall src :: !BackedBy(objs, f, src)) ==> trust == 0.0)
  }

  lemma SourceTrusts(objs: Objects, f: Obj)
    ensures Trusts(objs, f, SourceTrust(objs, f))
  {
    if SourceTrust(objs, f) != 0.0 {
      assert BackedBy(objs, f, objs[f.body.source.value]);
    }
  }

  /** Whatever its confidence, its time or its id: a fact does not win against a candidate whose source is trusted
      more, and without a source of its scope it does not win against any whose source is trusted at all. */
  lemma TrustedSourceWins(objs: Objects, facts: seq<Obj>, atValid: Option<Time>, atTx: Option<Time>, f: Obj, src: Obj,
                          g: Obj)
    requires DistinctIds(facts) && f in facts && Holds(f, atTx, atValid) && BackedBy(objs, f, src)
    requires forall other :: BackedBy(objs, g, other) ==> other.body.trust < src.body.trust
    requires (forall other :: !BackedBy(objs, g, other)) ==> src.body.trust > 0.0
    ensures ResolveCurrent(facts, atValid, atTx, (o: Obj) => SourceTrust(objs, o)) != Some(g)
  {
    var trustOf := (o: Obj) => SourceTrust(objs, o);
    CurrentWins(facts, atValid, atTx, trustOf);
    assert trustOf(f) == src.body.trust;
    if g.body.source.Some? && g.body.source.value in objs && BackedBy(objs, g, objs[g.body.source.value]) {
      assert trustOf(g) < trustOf(f);
    } else {
      assert forall other :: !BackedBy(objs, g, other);
      assert trustOf(g) == 0.0;
    }
  }
}
