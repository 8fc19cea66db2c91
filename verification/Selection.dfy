/** Which elements of a sequence are picked out, by their positions. */
module Selection {
  /** These are, in order, the positions of the elements that a condition keeps. */
  ghost predicate Keeps<T>(all: seq<T>, keep: T -> bool, at: seq<nat>) {
    && (forall k :: 0 <= k < |at| ==> at[k] < |all| && keep(all[at[k]]))
    && (forall j, k :: 0 <= j < k < |at| ==> at[j] < at[k])
    && (forall i :: 0 <= i < |all| && keep(all[i]) ==> i in at)
  }

  lemma KeepsSnoc<T>(front: seq<T>, x: T, keep: T -> bool, at: seq<nat>)
    requires Keeps(front, keep, at)
    ensures Keeps(front + [x], keep, if keep(x) then at + [|front|] else at)
  {
    var all, longer := front + [x], if keep(x) then at + [|front|] else at;
    assert forall i :: 0 <= i < |front| ==> all[i] == front[i];
    forall i | 0 <= i < |all| && keep(all[i]) ensures i in longer {
      if i < |front| {
        assert keep(front[i]) && i in at;
      } else {
        assert longer[|at|] == i;
      }
    }
  }

  /** These elements stand at these positions. */
  predicate Picked<T(==)>(all: seq<T>, at: seq<nat>, picked: seq<T>) {
    |picked| == |at| && forall k :: 0 <= k < |at| ==> at[k] < |all| && picked[k] == all[at[k]]
  }

  lemma PickedSnoc<T>(front: seq<T>, x: T, at: seq<nat>, picked: seq<T>)
    requires Picked(front, at, picked)
    ensures Picked(front + [x], at, picked) && Picked(front + [x], at + [|front|], picked + [x])
  {
    assert forall i :: 0 <= i < |front| ==> (front + [x])[i] == front[i];
  }

  /** An element that comes for the first time, and is none of the given ones. */
  predicate IsFirst<T(==)>(given: seq<T>, all: seq<T>, i: nat)
    requires i < |all|
  {
    all[i] !in given && all[i] !in all[..i]
  }

  /** In order, the positions at which something new comes for the first time. */
  ghost predicate FirstsAt<T>(given: seq<T>, all: seq<T>, at: seq<nat>) {
    && (forall k :: 0 <= k < |at| ==> at[k] < |all| && IsFirst(given, all, at[k]))
    && (forall j, k :: 0 <= j < k < |at| ==> at[j] < at[k])
    && (forall i :: 0 <= i < |all| && IsFirst(given, all, i) ==> i in at)
  }

  lemma FirstsSnoc<T>(given: seq<T>, front: seq<T>, x: T, at: seq<nat>)
    requires FirstsAt(given, front, at)
    ensures FirstsAt(given, front + [x], if IsFirst(given, front + [x], |front|) then at + [|front|] else at)
  {
    var all := front + [x];
    forall i | 0 <= i < |front| ensures all[i] == front[i] && all[..i] == front[..i] {
    }
    var longer := if IsFirst(given, all, |front|) then at + [|front|] else at;
    forall i | 0 <= i < |all| && IsFirst(given, all, i) ensures i in longer {
      if i < |front| {
        assert IsFirst(given, front, i) && i in at;
      } else {
        assert longer[|at|] == i;
      }
    }
  }
}
