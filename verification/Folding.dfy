/** What folding does to the versions of a statement: which objects share a key, and when an object that is
    still current is folded. */
module Folding {
  import opened Model
  import opened Collapse
  import opened Tally

  /******* Members of groups *******/

  lemma SameId(objs: seq<Obj>, a: Obj, b: Obj)
    requires DistinctIds(objs) && a in objs && b in objs && a.id == b.id
    ensures a == b
  {
    var i :| 0 <= i < |objs| && objs[i] == a;
    var j :| 0 <= j < |objs| && objs[j] == b;
    assert Ids(objs)[i] == Ids(objs)[j];
    TwiceAt(Ids(objs), i, j);
  }

  /** Equal elements at two positions occur twice. */
  lemma TwiceAt(s: seq<Id>, i: nat, j: nat)
    requires i < |s| && j < |s| && s[i] == s[j]
    ensures i != j ==> multiset(s)[s[i]] >= 2
  {
    if i != j {
      var lo, hi := if i <= j then i else j, if i <= j then j else i;
      assert s == s[..hi] + s[hi..];
      assert s[..hi][lo] == s[i] && s[hi..][0] == s[i];
      assert multiset(s)[s[i]] == multiset(s[..hi])[s[i]] + multiset(s[hi..])[s[i]];
    }
  }

  /** What a group folds is a member of its bucket. */
  lemma FoldedMember(objs: seq<Obj>, kind: GroupKind, mayCollapse: bool, scores: Scores, cost: Obj -> nat, g: Group,
                     k: string,
                     id: Id)
    returns (v: Obj)
    requires g in GroupFor(kind, mayCollapse, scores, cost, Matching(objs, KeyOf(kind), Some(k))) && id in g.collapsed
    ensures v in Matching(objs, KeyOf(kind), Some(k)) && v.id == id && v.id != g.canonical
    ensures g.canonical == Canonical(kind, scores, Matching(objs, KeyOf(kind), Some(k))).id
    ensures g.sources == Sources(Matching(objs, KeyOf(kind), Some(k)))
  {
    var versions := Matching(objs, KeyOf(kind), Some(k));
    var c := Canonical(kind, scores, versions);
    var n :| 0 <= n < |g.collapsed| && g.collapsed[n] == id;
    OthersIn(versions, c.id);
    v := Others(versions, c.id)[n];
  }

  /** The others are the members with another id. */
  lemma {:induction false} OthersIn(versions: seq<Obj>, id: Id)
    ensures forall v :: v in Others(versions, id) <==> v in versions && v.id != id
    decreases |versions|
  {
    if versions != [] {
      OthersIn(versions[..|versions| - 1], id);
      assert versions == versions[..|versions| - 1] + [versions[|versions| - 1]];
    }
  }

  /******* When two statements share a key *******/

  /** The same kind, subject and predicate, compared as written text: an absent one is written as the text "None", and
      so counts as the same as one with just that text. */
  predicate SameStatement(a: Obj, b: Obj) {
    && a.kind == b.kind && Written(a.body.subject) == Written(b.body.subject)
    && Written(a.body.pred) == Written(b.body.pred)
  }

  /** One subject is the other with the separator and some text appended, and the predicates differ by just
      that text in front. */
  ghost predicate Shifted(subject: string, pred: string, shorter: string, longer: string) {
    exists s :: subject == shorter + ("|" + s) && longer == s + ("|" + pred)
  }

  function Joined(subject: string, pred: string): string {
    subject + ("|" + pred)
  }

  lemma LongerIsShifted(a: string, b: string, x: string, y: string)
    requires Joined(a, b) == Joined(x, y) && |a| > |x|
    ensures Shifted(a, b, x, y)
  {
    var t := Joined(a, b);
    var s := a[|x| + 1..];
    assert a == t[..|a|] && x == t[..|x|] && t[|x|] == '|';
    assert a == x + ("|" + s);
    assert y == t[|x| + 1..] && b == t[|a| + 1..] && t[|a|] == '|';
    assert y == s + ("|" + b);
  }

  lemma ShiftedJoins(a: string, b: string, x: string, y: string)
    requires Shifted(a, b, x, y)
    ensures Joined(a, b) == Joined(x, y)
  {
    var s :| a == x + ("|" + s) && y == s + ("|" + b);
    assert (x + ("|" + s)) + ("|" + b) == x + ("|" + (s + ("|" + b)));
  }

  lemma JoinedIff(a: string, b: string, x: string, y: string)
    ensures Joined(a, b) == Joined(x, y) <==> (a == x && b == y) || Shifted(a, b, x, y) || Shifted(x, y, a, b)
  {
    if Joined(a, b) == Joined(x, y) {
      var t := Joined(a, b);
      if |a| > |x| {
        LongerIsShifted(a, b, x, y);
      } else if |a| < |x| {
        LongerIsShifted(x, y, a, b);
      } else {
        assert a == t[..|a|] && x == t[..|a|];
        assert b == t[|a| + 1..] && y == t[|a| + 1..];
      }
    }
    if Shifted(a, b, x, y) {
      ShiftedJoins(a, b, x, y);
    }
    if Shifted(x, y, a, b) {
      ShiftedJoins(x, y, a, b);
    }
  }

  /** Two facts, or two claims, share a statement key exactly when they are about the same statement or their
      subjects and predicates are shifted against each other at a separator. */
  lemma KeysShared(a: Obj, b: Obj)
    requires StatementKey(a).Some? && StatementKey(b).Some?
    ensures StatementKey(a) == StatementKey(b) <==>
            a.kind == b.kind &&
            (SameStatement(a, b) ||
             Shifted(Written(a.body.subject), Written(a.body.pred), Written(b.body.subject), Written(b.body.pred)) ||
             Shifted(Written(b.body.subject), Written(b.body.pred), Written(a.body.subject), Written(a.body.pred)))
  {
    KeyParts(a);
    KeyParts(b);
    JoinedIff(Written(a.body.subject), Written(a.body.pred), Written(b.body.subject), Written(b.body.pred));
  }

  /** A key is the kind and, after it, the joined statement. */
  lemma KeyParts(o: Obj)
    requires StatementKey(o).Some?
    ensures var k, j := StatementKey(o).value, Joined(Written(o.body.subject), Written(o.body.pred));
            if o.kind == Fact then k == "fact:" + j && k[0] == 'f' && k[5..] == j
            else o.kind == Claim && k == "claim:" + j && k[0] == 'c' && k[6..] == j
  {
    var s, p := Written(o.body.subject), Written(o.body.pred);
    assert "fact:" + s + "|" + p == "fact:" + (s + ("|" + p));
    assert "claim:" + s + "|" + p == "claim:" + (s + ("|" + p));
  }

  /** With the separator in a subject, two different statements do share a key. */
  lemma KeysCollide(a: Obj, b: Obj)
    requires a.kind == Fact && a.body.subject == Some("x|y") && a.body.pred == Some("z")
    requires b.kind == Fact && b.body.subject == Some("x") && b.body.pred == Some("y|z")
    ensures StatementKey(a) == StatementKey(b) && !SameStatement(a, b)
  {
    assert "x|y" == "x" + ("|" + "y") && "y|z" == "y" + ("|" + "z");
    assert Shifted("x|y", "z", "x", "y|z");
    KeysShared(a, b);
  }

  /******* When a current version is folded *******/

  /** The group folds a version that is still current. */
  predicate FoldsCurrent(objs: seq<Obj>, g: Group) {
    exists o :: o in objs && IsCurrent(o) && o.id in g.collapsed
  }

  ghost predicate SomeFoldsCurrent(mayCollapse: bool, scores: Scores, cost: Obj -> nat, objs: seq<Obj>) {
    exists g :: IsGroup(History, mayCollapse, scores, cost, objs, g) && FoldsCurrent(objs, g)
  }

  /** Two current objects share a statement key. */
  predicate TwoCurrent(objs: seq<Obj>) {
    exists a, b :: a in objs && b in objs && BothCurrent(a, b)
  }

  predicate BothCurrent(a: Obj, b: Obj) {
    a.id != b.id && StatementKey(a).Some? && StatementKey(a) == StatementKey(b) && IsCurrent(a) && IsCurrent(b)
  }

  /** Folding history folds a current version exactly when history may be collapsed and some statement key has
      two current versions. */
  lemma CurrentVersionFolded(mayCollapse: bool, scores: Scores, cost: Obj -> nat, objs: seq<Obj>)
    requires DistinctIds(objs)
    ensures SomeFoldsCurrent(mayCollapse, scores, cost, objs) <==> mayCollapse && TwoCurrent(objs)
  {
    if SomeFoldsCurrent(mayCollapse, scores, cost, objs) {
      var g :| IsGroup(History, mayCollapse, scores, cost, objs, g) && FoldsCurrent(objs, g);
      FoldedBesideCurrent(mayCollapse, scores, cost, objs, g);
    }
    if mayCollapse && TwoCurrent(objs) {
      var a, b :| a in objs && b in objs && BothCurrent(a, b);
      OneOfTwoFolded(scores, cost, objs, a, b);
    }
  }

  lemma FoldedBesideCurrent(mayCollapse: bool, scores: Scores, cost: Obj -> nat, objs: seq<Obj>, g: Group)
    requires DistinctIds(objs) && IsGroup(History, mayCollapse, scores, cost, objs, g) && FoldsCurrent(objs, g)
    ensures mayCollapse && TwoCurrent(objs)
  {
    var o :| o in objs && IsCurrent(o) && o.id in g.collapsed;
    var k :| g in GroupFor(History, mayCollapse, scores, cost, Matching(objs, KeyOf(History), Some(k)));
    var versions := Matching(objs, StatementKey, Some(k));
    MatchingIn(objs, StatementKey, Some(k));
    var v := FoldedMember(objs, History, mayCollapse, scores, cost, g, k, o.id);
    SameId(objs, o, v);
    var c := Canonical(History, scores, versions);
    assert BothCurrent(c, o);
  }

  lemma OneOfTwoFolded(scores: Scores, cost: Obj -> nat, objs: seq<Obj>, a: Obj, b: Obj)
    requires DistinctIds(objs) && a in objs && b in objs && BothCurrent(a, b)
    ensures SomeFoldsCurrent(true, scores, cost, objs)
  {
    var k := StatementKey(a).value;
    var versions := Matching(objs, StatementKey, Some(k));
    MatchingIn(objs, StatementKey, Some(k));
    TwoMembers(versions, a, b);
    var groups := GroupFor(History, true, scores, cost, versions);
    OtherFolded(scores, cost, objs, versions, a, b);
    assert groups[0] in GroupFor(History, true, scores, cost, Matching(objs, KeyOf(History), Some(k)));
    assert FoldsCurrent(objs, groups[0]);
  }

  /** Of two current members at most one is the canonical one. */
  lemma OtherFolded(scores: Scores, cost: Obj -> nat, objs: seq<Obj>, versions: seq<Obj>, a: Obj, b: Obj)
    requires DistinctIds(objs) && a in objs && b in objs && BothCurrent(a, b) && |versions| > 1
    requires a in versions && b in versions
    ensures FoldsCurrent(objs, GroupOf(History, scores, cost, versions))
  {
    var c := Canonical(History, scores, versions);
    var folded := if a.id == c.id then b else a;
    OthersIn(versions, c.id);
    MemberId(Others(versions, c.id), folded);
  }

  lemma TwoMembers(s: seq<Obj>, a: Obj, b: Obj)
    requires a in s && b in s && a != b
    ensures |s| > 1
  {
    var i :| 0 <= i < |s| && s[i] == a;
    var j :| 0 <= j < |s| && s[j] == b;
  }
}
