/** Nodes within a number of steps of a start. */
module Reach {
  import opened Model

  /** The neighbours of a node. */
  type Step = Id -> set<Id>

  function StepAll(step: Step, from: set<Id>): set<Id> {
    set n, m | n in from && m in step(n) :: m
  }

  function Within(step: Step, start: Id, k: nat): set<Id> {
    if k == 0 then {start} else Within(step, start, k - 1) + StepAll(step, Within(step, start, k - 1))
  }

  lemma {:induction false} WithinGrows(step: Step, start: Id, j: nat, k: nat)
    requires j <= k
    ensures Within(step, start, j) <= Within(step, start, k)
    decreases k
  {
    if j < k {
      WithinGrows(step, start, j, k - 1);
    }
  }

  /** Once no node is added, none ever is. */
  lemma {:induction false} WithinSettles(step: Step, start: Id, j: nat, k: nat)
    requires j <= k && StepAll(step, Within(step, start, j)) <= Within(step, start, j)
    ensures Within(step, start, k) == Within(step, start, j)
    decreases k
  {
    if j < k {
      WithinSettles(step, start, j, k - 1);
      var settled := Within(step, start, j);
      assert Within(step, start, k) == settled + StepAll(step, settled);
      assert settled + StepAll(step, settled) == settled;
    }
  }

  /** A walk from its first to its last node. */
  ghost predicate Walk(step: Step, path: seq<Id>) {
    path != [] && forall i :: 0 < i < |path| ==> path[i] in step(path[i - 1])
  }

  ghost predicate Leads(step: Step, start: Id, node: Id, k: nat, path: seq<Id>) {
    Walk(step, path) && path[0] == start && path[|path| - 1] == node && |path| <= k + 1
  }

  /** Being within k steps is being the end of a walk of at most k steps. */
  lemma {:induction false} WithinIffWalk(step: Step, start: Id, node: Id, k: nat)
    ensures node in Within(step, start, k) <==> exists path :: Leads(step, start, node, k, path)
    decreases k
  {
    if node in Within(step, start, k) {
      WithinHasWalk(step, start, node, k);
    }
    forall path | Leads(step, start, node, k, path) ensures node in Within(step, start, k) {
      WalkIsWithin(step, start, node, k, path);
    }
  }

  lemma {:induction false} WithinHasWalk(step: Step, start: Id, node: Id, k: nat)
    requires node in Within(step, start, k)
    ensures exists path :: Leads(step, start, node, k, path)
    decreases k
  {
    if k == 0 {
      assert Leads(step, start, node, k, [start]);
    } else if node in Within(step, start, k - 1) {
      WithinHasWalk(step, start, node, k - 1);
      var path :| Leads(step, start, node, k - 1, path);
      assert Leads(step, start, node, k, path);
    } else {
      var n :| n in Within(step, start, k - 1) && node in step(n);
      WithinHasWalk(step, start, n, k - 1);
      var path :| Leads(step, start, n, k - 1, path);
      assert Leads(step, start, node, k, path + [node]);
    }
  }

  lemma {:induction false} WalkIsWithin(step: Step, start: Id, node: Id, k: nat, path: seq<Id>)
    requires Leads(step, start, node, k, path)
    ensures node in Within(step, start, k)
    decreases |path|
  {
    if |path| == 1 {
      WithinGrows(step, start, 0, k);
    } else {
      var front := path[..|path| - 1];
      WalkIsWithin(step, start, front[|front| - 1], k - 1, front);
      assert node in step(front[|front| - 1]);
    }
  }
}
