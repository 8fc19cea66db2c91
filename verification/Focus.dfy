/** The part of the panel's graph around one node. */
module Focus {
  import opened Model
  import opened Reach

  datatype PanelEdge = PanelEdge(source: Id, target: Id, name: string)

  predicate Connects(e: PanelEdge, n: Id, m: Id) {
    (e.source == n && e.target == m) || (e.source == m && e.target == n)
  }

  predicate Joined(edges: seq<PanelEdge>, n: Id, m: Id) {
    exists e :: e in edges && Connects(e, n, m)
  }

  /** Over edges in either direction, to nodes that are shown. */
  function Touching(shown: set<Id>, edges: seq<PanelEdge>): Step {
    (n: Id) => set m | m in shown && Joined(edges, n, m)
  }

  lemma JoinedMore(edges: seq<PanelEdge>, i: nat, n: Id, m: Id)
    requires i < |edges|
    ensures Joined(edges[..i + 1], n, m) <==> Joined(edges[..i], n, m) || Connects(edges[i], n, m)
  {
    assert edges[..i + 1] == edges[..i] + [edges[i]];
    assert Connects(edges[i], n, m) ==> edges[i] in edges[..i + 1];
  }

  predicate Adds(shown: set<Id>, e: PanelEdge, frontier: set<Id>, m: Id) {
    (e.source in frontier && e.target == m && m in shown) || (e.target in frontier && e.source == m && m in shown)
  }

  lemma RoundStep(shown: set<Id>, edges: seq<PanelEdge>, i: nat, frontier: set<Id>, m: Id)
    requires i < |edges|
    ensures m in StepAll(Touching(shown, edges[..i + 1]), frontier) <==>
            m in StepAll(Touching(shown, edges[..i]), frontier) || Adds(shown, edges[i], frontier, m)
  {
    if m in StepAll(Touching(shown, edges[..i + 1]), frontier) {
      var n :| n in frontier && m in Touching(shown, edges[..i + 1])(n);
      JoinedMore(edges, i, n, m);
      assert Joined(edges[..i], n, m) ==> m in Touching(shown, edges[..i])(n);
    }
    if m in StepAll(Touching(shown, edges[..i]), frontier) {
      var n :| n in frontier && m in Touching(shown, edges[..i])(n);
      JoinedMore(edges, i, n, m);
      assert m in Touching(shown, edges[..i + 1])(n);
    }
    if Adds(shown, edges[i], frontier, m) {
      var n := if edges[i].source in frontier && edges[i].target == m then edges[i].source else edges[i].target;
      JoinedMore(edges, i, n, m);
      assert m in Touching(shown, edges[..i + 1])(n);
    }
  }

  /** One round: the nodes that touch the frontier. */
  method Round(shown: set<Id>, edges: seq<PanelEdge>, frontier: set<Id>) returns (next: set<Id>)
    ensures next == StepAll(Touching(shown, edges), frontier)
  {
    next := {};
    for i := 0 to |edges|
      invariant next == StepAll(Touching(shown, edges[..i]), frontier)
    {
      var e := edges[i];
      ghost var was := next;
      if e.source in frontier && e.target in shown {
        next := next + {e.target};
      }
      if e.target in frontier && e.source in shown {
        next := next + {e.source};
      }
      forall m ensures m in next <==> m in StepAll(Touching(shown, edges[..i + 1]), frontier) {
        RoundStep(shown, edges, i, frontier, m);
        assert m in next <==> m in was || Adds(shown, e, frontier, m);
      }
    }
    assert edges[..|edges|] == edges;
  }

  lemma StepSplit(step: Step, a: set<Id>, b: set<Id>)
    ensures StepAll(step, a + b) == StepAll(step, a) + StepAll(step, b)
  {
  }

  /** The walk after h rounds: everything kept but the frontier has been expanded. */
  ghost predicate AfterRounds(step: Step, focus: Id, h: nat, keep: set<Id>, frontier: set<Id>) {
    && keep == Within(step, focus, h)
    && frontier <= keep
    && StepAll(step, keep - frontier) <= keep
  }

  lemma NextRound(step: Step, focus: Id, h: nat, keep: set<Id>, frontier: set<Id>)
    requires AfterRounds(step, focus, h, keep, frontier)
    ensures var next := StepAll(step, frontier) - keep; AfterRounds(step, focus, h + 1, keep + next, next)
  {
    var next := StepAll(step, frontier) - keep;
    assert (keep - frontier) + frontier == keep;
    StepSplit(step, keep - frontier, frontier);
    assert keep + next - next == keep;
  }

  /** The nodes within the given number of undirected edges. */
  method Around(focus: Id, shown: set<Id>, edges: seq<PanelEdge>, hops: int) returns (keep: set<Id>)
    ensures keep == Within(Touching(shown, edges), focus, if hops > 0 then hops else 0)
  {
    ghost var step := Touching(shown, edges);
    ghost var rounds: nat := if hops > 0 then hops else 0;
    keep := {focus};
    var frontier, h := {focus}, 0;
    assert keep - frontier == {};
    while h < hops && frontier != {}
      invariant 0 <= h <= rounds && AfterRounds(step, focus, h, keep, frontier)
      decreases hops - h
    {
      var next := Round(shown, edges, frontier);
      NextRound(step, focus, h, keep, frontier);
      next := next - keep;
      keep, frontier, h := keep + next, next, h + 1;
    }
    if frontier == {} {
      assert keep - frontier == keep;
      WithinSettles(step, focus, h, rounds);
    }
  }

  lemma {:induction false} WithinShown(focus: Id, shown: set<Id>, edges: seq<PanelEdge>, k: nat)
    requires focus in shown
    ensures Within(Touching(shown, edges), focus, k) <= shown
    decreases k
  {
    if k > 0 {
      WithinShown(focus, shown, edges, k - 1);
    }
  }

  /** Keeps exactly the nodes within the given number of undirected edges of the focus, and the edges
      between kept nodes. */
  method RestrictToFocus(focus: Id, nodes: map<Id, Obj>, edges: seq<PanelEdge>, hops: int)
    returns (keptNodes: map<Id, Obj>, keptEdges: seq<PanelEdge>)
    ensures focus !in nodes ==> keptNodes == map[] && keptEdges == []
    ensures focus in nodes ==>
              keptNodes.Keys == Within(Touching(nodes.Keys, edges), focus, if hops > 0 then hops else 0)
    ensures forall id :: id in keptNodes ==> id in nodes && keptNodes[id] == nodes[id]
    ensures forall e :: e in keptEdges <==> e in edges && e.source in keptNodes && e.target in keptNodes
  {
    if focus !in nodes {
      return map[], [];
    }
    var keep := Around(focus, nodes.Keys, edges, hops);
    WithinShown(focus, nodes.Keys, edges, if hops > 0 then hops else 0);
    keptNodes := map id | id in nodes && id in keep :: nodes[id];
    keptEdges := [];
    for i := 0 to |edges|
      invariant forall e :: e in keptEdges <==> e in edges[..i] && e.source in keptNodes && e.target in keptNodes
    {
      assert edges[..i + 1] == edges[..i] + [edges[i]];
      if edges[i].source in keep && edges[i].target in keep {
        keptEdges := keptEdges + [edges[i]];
      }
    }
    assert edges[..|edges|] == edges;
  }
}
