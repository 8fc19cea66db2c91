/** Belief is derived from a claim's lifecycle, its governance markers and its reviews; the panel's
    counters derive it a second time, in one pass. */
module Belief {
  import opened Model
  import opened Tally

  datatype State = BRetracted | BSuperseded | BRejected | BAccepted | BDisputed | BSupported | BProposed

  predicate Says(reviews: seq<Obj>, v: Verdict) {
    exists r :: r in reviews && r.body.verdict == Some(v)
  }

  /** The state of one claim, from the reviews of that claim. A marker counts when it is present. */
  function DeriveBelief(claim: Obj, reviews: seq<Obj>): State {
    if claim.status == Retracted then BRetracted
    else if claim.status == Superseded then BSuperseded
    else if claim.meta.rejected.Some? then BRejected
    else if claim.meta.accepted.Some? then BAccepted
    else if Says(reviews, Dispute) || Says(reviews, Reject) then BDisputed
    else if Says(reviews, Confirm) then BSupported
    else BProposed
  }

  /** A value that is absent or empty does not count. */
  predicate Truthy(m: Option<Marker>) {
    m.Some? && m.value != Empty
  }

  /** The state as the panel counts it, from the verdicts alone. A marker counts when it is not empty. */
  function StateOf(claim: Obj, verdicts: seq<Option<Verdict>>): State {
    if claim.status == Retracted then BRetracted
    else if claim.status == Superseded then BSuperseded
    else if Truthy(claim.meta.rejected) then BRejected
    else if Truthy(claim.meta.accepted) then BAccepted
    else if Some(Dispute) in verdicts || Some(Reject) in verdicts then BDisputed
    else if Some(Confirm) in verdicts then BSupported
    else BProposed
  }

  function VerdictOf(r: Obj): Option<Verdict> {
    r.body.verdict
  }

  /** The claim is closed, or its rejection is a real one, or it has none and no empty acceptance. */
  predicate PlainMarkers(claim: Obj) {
    || claim.status == Retracted || claim.status == Superseded
    || Truthy(claim.meta.rejected)
    || (claim.meta.rejected.None? && claim.meta.accepted != Some(Empty))
  }

  /** The two derivations agree on a claim exactly when no empty marker decides. */
  lemma AgreeIffPlain(claim: Obj, reviews: seq<Obj>)
    ensures StateOf(claim, Map(VerdictOf, reviews)) == DeriveBelief(claim, reviews) <==> PlainMarkers(claim)
  {
    var verdicts := Map(VerdictOf, reviews);
    forall v ensures Some(v) in verdicts <==> Says(reviews, v) {
      if Says(reviews, v) {
        var r :| r in reviews && r.body.verdict == Some(v);
        var i :| 0 <= i < |reviews| && reviews[i] == r;
        assert verdicts[i] == Some(v);
      }
      if Some(v) in verdicts {
        var i :| 0 <= i < |verdicts| && verdicts[i] == Some(v);
        assert reviews[i] in reviews;
      }
    }
  }

  /******* The order of precedence, said of the claim and its reviews alone *******/

  /** No decision counts: none was made against the claim, and none for it. */
  predicate Undecided(claim: Obj) {
    claim.status != Retracted && claim.status != Superseded &&
    claim.meta.rejected.None? && claim.meta.accepted.None?
  }

  ghost predicate SomeSays(reviews: seq<Obj>, v: Verdict) {
    exists i :: 0 <= i < |reviews| && reviews[i].body.verdict == Some(v)
  }

  /** Its lifecycle comes before decisions, a rejection before an acceptance, decisions before reviews, and one review
      that disputes or rejects before any number that confirm. */
  lemma BeliefIs(claim: Obj, reviews: seq<Obj>)
    ensures var s := DeriveBelief(claim, reviews);
            var closed := claim.status == Retracted || claim.status == Superseded;
            && (s == BRetracted <==> claim.status == Retracted)
            && (s == BSuperseded <==> claim.status == Superseded)
            && (s == BRejected <==> !closed && claim.meta.rejected.Some?)
            && (s == BAccepted <==> !closed && claim.meta.rejected.None? && claim.meta.accepted.Some?)
            && (s == BDisputed <==> Undecided(claim) && (SomeSays(reviews, Dispute) || SomeSays(reviews, Reject)))
            && (s == BSupported <==> Undecided(claim) && SomeSays(reviews, Confirm) &&
                                     !SomeSays(reviews, Dispute) && !SomeSays(reviews, Reject))
  {
    forall v ensures Says(reviews, v) <==> SomeSays(reviews, v) {
      if i :| 0 <= i < |reviews| && reviews[i].body.verdict == Some(v) {
        assert reviews[i] in reviews;
      }
    }
  }

  /** A present marker that counts for the panel: one that is not empty. */
  predicate Marked(m: Option<Marker>) {
    m.Some? && m.value.Governed?
  }

  /** The panel's order is the same, but for what counts as a decision. */
  lemma CountedAs(claim: Obj, verdicts: seq<Option<Verdict>>)
    ensures var s := StateOf(claim, verdicts);
            var closed := claim.status == Retracted || claim.status == Superseded;
            var undecided := !closed && !Marked(claim.meta.rejected) && !Marked(claim.meta.accepted);
            var disputed := Some(Dispute) in verdicts || Some(Reject) in verdicts;
            && (s == BRetracted <==> claim.status == Retracted)
            && (s == BSuperseded <==> claim.status == Superseded)
            && (s == BRejected <==> !closed && Marked(claim.meta.rejected))
            && (s == BAccepted <==> !closed && !Marked(claim.meta.rejected) && Marked(claim.meta.accepted))
            && (s == BDisputed <==> undecided && disputed)
            && (s == BSupported <==> undecided && !disputed && Some(Confirm) in verdicts)
  {
  }

  /** Governance by a recorded decision is always plain, whatever else the claim carries. */
  lemma GovernedIsPlain(claim: Obj)
    requires claim.meta.accepted.Some? ==> claim.meta.accepted.value.Governed?
    requires claim.meta.rejected.Some? ==> claim.meta.rejected.value.Governed?
    ensures PlainMarkers(claim)
  {
  }

  /** The claim a review is about. */
  function About(r: Obj): Id {
    if r.body.claimId.Some? then r.body.claimId.value else ""
  }

  /** In order, the reviews of one claim. */
  function ReviewsOf(reviews: seq<Obj>, claim: Id): seq<Obj>
    decreases |reviews|
  {
    if reviews == [] then []
    else
      var front, r := ReviewsOf(reviews[..|reviews| - 1], claim), reviews[|reviews| - 1];
      if About(r) == claim then front + [r] else front
  }

  lemma {:induction false} ReviewsOfIn(reviews: seq<Obj>, claim: Id)
    ensures forall r :: r in ReviewsOf(reviews, claim) <==> r in reviews && About(r) == claim
    decreases |reviews|
  {
    if reviews != [] {
      ReviewsOfIn(reviews[..|reviews| - 1], claim);
      assert reviews == reviews[..|reviews| - 1] + [reviews[|reviews| - 1]];
    }
  }

  function VerdictsOf(reviews: seq<Obj>, claim: Id): seq<Option<Verdict>>
    decreases |reviews|
  {
    if reviews == [] then []
    else
      var front, r := VerdictsOf(reviews[..|reviews| - 1], claim), reviews[|reviews| - 1];
      if About(r) == claim then front + [r.body.verdict] else front
  }

  lemma {:induction false} VerdictsAreTheirs(reviews: seq<Obj>, claim: Id)
    ensures VerdictsOf(reviews, claim) == Map(VerdictOf, ReviewsOf(reviews, claim))
    decreases |reviews|
  {
    if reviews != [] {
      var front := reviews[..|reviews| - 1];
      VerdictsAreTheirs(front, claim);
    }
  }

  /** The verdicts of all reviews by the claim they are about, gathered in one pass. */
  method Gather(reviews: seq<Obj>) returns (verdicts: map<Id, seq<Option<Verdict>>>)
    ensures forall c :: (if c in verdicts then verdicts[c] else []) == VerdictsOf(reviews, c)
  {
    verdicts := map[];
    for i := 0 to |reviews|
      invariant forall c :: (if c in verdicts then verdicts[c] else []) == VerdictsOf(reviews[..i], c)
    {
      assert reviews[..i + 1][..i] == reviews[..i];
      var c := About(reviews[i]);
      verdicts := verdicts[c := (if c in verdicts then verdicts[c] else []) + [reviews[i].body.verdict]];
    }
    assert reviews[..|reviews|] == reviews;
  }

  datatype Counters = Counters(disputed: nat, accepted: nat, supported: nat, proposed: nat)

  function Is(reviews: seq<Obj>, s: State): Obj -> nat {
    (c: Obj) => if DeriveBelief(c, ReviewsOf(reviews, c.id)) == s then 1 else 0
  }

  function Seems(reviews: seq<Obj>, s: State): Obj -> nat {
    (c: Obj) => if StateOf(c, VerdictsOf(reviews, c.id)) == s then 1 else 0
  }

  /** How many claims derive to a state. */
  function Count(claims: seq<Obj>, reviews: seq<Obj>, s: State): nat {
    Sum(Is(reviews, s), claims)
  }

  /** How many the panel counts. */
  function Tallied(claims: seq<Obj>, reviews: seq<Obj>, s: State): nat {
    Sum(Seems(reviews, s), claims)
  }

  /** Both counts agree when every claim's markers are plain. */
  lemma TalliedIsCount(claims: seq<Obj>, reviews: seq<Obj>, s: State)
    requires forall c :: c in claims ==> PlainMarkers(c)
    ensures Tallied(claims, reviews, s) == Count(claims, reviews, s)
  {
    forall c | c in claims ensures Seems(reviews, s)(c) == Is(reviews, s)(c) {
      VerdictsAreTheirs(reviews, c.id);
      AgreeIffPlain(c, ReviewsOf(reviews, c.id));
    }
    SumSame(Seems(reviews, s), Is(reviews, s), claims);
  }

  lemma {:induction false} SumSame<T>(f: T -> nat, g: T -> nat, s: seq<T>)
    requires forall x :: x in s ==> f(x) == g(x)
    ensures Sum(f, s) == Sum(g, s)
    decreases |s|
  {
    if s != [] {
      SumSame(f, g, s[..|s| - 1]);
    }
  }

  /** The counters, from one pass over the reviews and one over the claims. */
  method Counts(claims: seq<Obj>, reviews: seq<Obj>) returns (n: Counters)
    ensures n == Counters(Tallied(claims, reviews, BDisputed), Tallied(claims, reviews, BAccepted),
                          Tallied(claims, reviews, BSupported), Tallied(claims, reviews, BProposed))
    ensures (forall c :: c in claims ==> PlainMarkers(c)) ==>
              n == Counters(Count(claims, reviews, BDisputed), Count(claims, reviews, BAccepted),
                            Count(claims, reviews, BSupported), Count(claims, reviews, BProposed))
  {
    var verdicts := Gather(reviews);
    var disputed, accepted, supported, proposed := 0, 0, 0, 0;
    for i := 0 to |claims|
      invariant disputed == Tallied(claims[..i], reviews, BDisputed)
      invariant accepted == Tallied(claims[..i], reviews, BAccepted)
      invariant supported == Tallied(claims[..i], reviews, BSupported)
      invariant proposed == Tallied(claims[..i], reviews, BProposed)
    {
      var c := claims[i];
      var state := StateOf(c, if c.id in verdicts then verdicts[c.id] else []);
      SumStep(Seems(reviews, BDisputed), claims, i);
      SumStep(Seems(reviews, BAccepted), claims, i);
      SumStep(Seems(reviews, BSupported), claims, i);
      SumStep(Seems(reviews, BProposed), claims, i);
      disputed := disputed + if state == BDisputed then 1 else 0;
      accepted := accepted + if state == BAccepted then 1 else 0;
      supported := supported + if state == BSupported then 1 else 0;
      proposed := proposed + if state == BProposed then 1 else 0;
    }
    assert claims[..|claims|] == claims;
    n := Counters(disputed, accepted, supported, proposed);
    if forall c :: c in claims ==> PlainMarkers(c) {
      TalliedIsCount(claims, reviews, BDisputed);
      TalliedIsCount(claims, reviews, BAccepted);
      TalliedIsCount(claims, reviews, BSupported);
      TalliedIsCount(claims, reviews, BProposed);
    }
  }

  lemma SayTheSame(reviews: seq<Obj>, reviews2: seq<Obj>, claim: Id, v: Verdict)
    requires multiset(reviews) == multiset(reviews2)
    ensures Says(ReviewsOf(reviews, claim), v) ==> Says(ReviewsOf(reviews2, claim), v)
  {
    if Says(ReviewsOf(reviews, claim), v) {
      var r :| r in ReviewsOf(reviews, claim) && r.body.verdict == Some(v);
      ReviewsOfIn(reviews, claim);
      ReviewsOfIn(reviews2, claim);
      assert r in multiset(reviews);
    }
  }

  lemma DeriveTheSame(c: Obj, reviews: seq<Obj>, reviews2: seq<Obj>)
    requires multiset(reviews) == multiset(reviews2)
    ensures DeriveBelief(c, ReviewsOf(reviews, c.id)) == DeriveBelief(c, ReviewsOf(reviews2, c.id))
  {
    forall v ensures Says(ReviewsOf(reviews, c.id), v) <==> Says(ReviewsOf(reviews2, c.id), v) {
      SayTheSame(reviews, reviews2, c.id, v);
      SayTheSame(reviews2, reviews, c.id, v);
    }
  }

  /** Neither the order of the claims nor that of the reviews matters. */
  lemma CountsIgnoreOrder(claims: seq<Obj>, reviews: seq<Obj>, claims2: seq<Obj>, reviews2: seq<Obj>, s: State)
    requires multiset(claims) == multiset(claims2) && multiset(reviews) == multiset(reviews2)
    ensures Count(claims, reviews, s) == Count(claims2, reviews2, s)
  {
    forall c | c in claims ensures Is(reviews, s)(c) == Is(reviews2, s)(c) {
      DeriveTheSame(c, reviews, reviews2);
    }
    SumSame(Is(reviews, s), Is(reviews2, s), claims);
    SumRearranged(Is(reviews2, s), claims, claims2);
  }

  /** The counts are numbers of claims. */
  lemma CountIsSize(claims: seq<Obj>, reviews: seq<Obj>, s: State)
    ensures Count(claims, reviews, s) ==
            |Where((c: Obj) => DeriveBelief(c, ReviewsOf(reviews, c.id)) == s, claims)|
    ensures Tallied(claims, reviews, s) ==
            |Where((c: Obj) => StateOf(c, VerdictsOf(reviews, c.id)) == s, claims)|
  {
    SumIsSize(Is(reviews, s), (c: Obj) => DeriveBelief(c, ReviewsOf(reviews, c.id)) == s, claims);
    SumIsSize(Seems(reviews, s), (c: Obj) => StateOf(c, VerdictsOf(reviews, c.id)) == s, claims);
  }
}
