/** A scaling edge overwrites what its target held, so forward edges into the same node declared
    before it are dead: deleting them, and changing that node's seed, leaves propagation unchanged. */
module DeadEdges {
  import opened Graph
  import opened StructuralModel

  /** Some edge of the list scales n. */
  predicate ScaledBy(edges: seq<Edge>, n: NodeId) {
    edges != [] && ((edges[0].to == n && edges[0].kind.Scales()) || ScaledBy(edges[1..], n))
  }

  lemma {:induction false} ScaledByMember(edges: seq<Edge>, e: Edge)
    requires e in edges && e.kind.Scales()
    ensures ScaledBy(edges, e.to)
  {
    if e != edges[0] {
      ScaledByMember(edges[1..], e);
    }
  }

  /** Deletes every forward edge that is followed by a scaling edge into the same node. */
  function Prune(edges: seq<Edge>): seq<Edge> {
    if edges == [] then []
    else if !edges[0].kind.Feedback? && ScaledBy(edges[1..], edges[0].to) then Prune(edges[1..])
    else [edges[0]] + Prune(edges[1..])
  }

  function Pruned(g: GraphDef): GraphDef {
    GraphDef(g.nodes, Prune(g.edges))
  }

  lemma {:induction false} PruneMembers(edges: seq<Edge>, e: Edge)
    requires e in Prune(edges)
    ensures e in edges
  {
    if e !in Prune(edges[1..]) {
      assert e == edges[0];
    } else {
      PruneMembers(edges[1..], e);
    }
  }

  /** No edge that survives is followed by a scaling edge into its target: pruning is complete. */
  lemma {:induction false} PruneComplete(edges: seq<Edge>, i: nat, j: nat)
    requires i < j < |Prune(edges)|
    requires !Prune(edges)[i].kind.Feedback?
    ensures !(Prune(edges)[j].kind.Scales() && Prune(edges)[j].to == Prune(edges)[i].to)
  {
    var rest := edges[1..];
    if !edges[0].kind.Feedback? && ScaledBy(rest, edges[0].to) {
      PruneComplete(rest, i, j);
    } else if i > 0 {
      PruneComplete(rest, i - 1, j - 1);
    } else {
      PruneMembers(rest, Prune(edges)[j]);
      if Prune(edges)[j].kind.Scales() {
        ScaledByMember(rest, Prune(edges)[j]);
      }
    }
  }

  lemma {:induction false} PruneKeepsFeedback(edges: seq<Edge>)
    ensures FeedbackOnly(Prune(edges)) == FeedbackOnly(edges)
  {
    if edges != [] {
      PruneKeepsFeedback(edges[1..]);
      assert ([edges[0]] + Prune(edges[1..]))[1..] == Prune(edges[1..]);
    }
  }

  lemma {:induction false} ForwardScaled(edges: seq<Edge>, n: NodeId)
    ensures ScaledBy(Forward(edges), n) == ScaledBy(edges, n)
  {
    if edges != [] {
      ForwardScaled(edges[1..], n);
      assert ([edges[0]] + Forward(edges[1..]))[1..] == Forward(edges[1..]);
    }
  }

  /** Pruning commutes with separating the feedback edges. */
  lemma {:induction false} PruneForward(edges: seq<Edge>)
    ensures Forward(Prune(edges)) == Prune(Forward(edges))
  {
    if edges != [] {
      var e, rest := edges[0], edges[1..];
      PruneForward(rest);
      ForwardScaled(rest, e.to);
      assert ([e] + Prune(rest))[1..] == Prune(rest);
      if !e.kind.Feedback? {
        assert ([e] + Forward(rest))[1..] == Forward(rest);
      }
    }
  }

  /** Once a scaling edge into n is still ahead, what n holds now is irrelevant. */
  lemma {:induction false} AccumulatorForgotten(edges: seq<Edge>, n: NodeId, x: real, y: real, v: Values)
    requires EndpointsIn(edges, v.Keys) && ScaledBy(edges, n)
    ensures Inbound(edges, n, x, v) == Inbound(edges, n, y, v)
  {
    var e, rest := edges[0], edges[1..];
    if e.to != n {
      AccumulatorForgotten(rest, n, x, y, v);
    } else if ScaledBy(rest, n) {
      AccumulatorForgotten(rest, n, ApplyEdge(e.kind, v[e.from], x, e.weight),
          ApplyEdge(e.kind, v[e.from], y, e.weight), v);
    }
  }

  lemma {:induction false} PruneInbound(edges: seq<Edge>, n: NodeId, x: real, v: Values)
    requires EndpointsIn(edges, v.Keys) && EndpointsIn(Prune(edges), v.Keys)
    requires forall e | e in edges :: !e.kind.Feedback?
    ensures Inbound(Prune(edges), n, x, v) == Inbound(edges, n, x, v)
  {
    if edges != [] {
      var e, rest := edges[0], edges[1..];
      var x' := if e.to == n then ApplyEdge(e.kind, v[e.from], x, e.weight) else x;
      if ScaledBy(rest, e.to) {
        PruneInbound(rest, n, x, v);
        if e.to == n {
          AccumulatorForgotten(rest, n, x, x', v);
        }
      } else {
        assert Prune(edges)[1..] == Prune(rest);
        PruneInbound(rest, n, x', v);
      }
    }
  }

  /** Dead-edge elimination preserves meaning, for all seeds, although the pruned graph is sorted anew. */
  lemma {:induction false} PrunePreservesPropagation(g: GraphDef, seeds: Values)
    requires g.Declared() && Acyclic(Forward(g.edges))
    ensures Pruned(g).Declared() && Propagated(Pruned(g), seeds) == Propagated(g, seeds)
  {
    var forward, init := Forward(g.edges), Initial(g.NodeIds(), seeds);
    forall e | e in Prune(g.edges) ensures e in g.edges {
      PruneMembers(g.edges, e);
    }
    ForwardDeclared(g.edges, g.NodeIds());
    ForwardDeclared(Prune(g.edges), g.NodeIds());
    PruneForward(g.edges);
    PruneKeepsFeedback(g.edges);
    forall e ensures e in forward ==> !e.kind.Feedback? {
      ForwardMembers(g.edges, e);
    }
    forall e | e in Prune(forward) ensures e in forward {
      PruneMembers(forward, e);
    }
    AcyclicSubgraph(Prune(forward), forward);
    var v := RawForward(forward, init);
    forall n | n in v
      ensures SolvesAt(Prune(forward), init, v, n)
    {
      assert SolvesAt(forward, init, v, n);
      PruneInbound(forward, n, init[n], v);
    }
    SolutionUnique(Prune(forward), init, v, RawForward(Prune(forward), init));
  }

  /** The seed of a node with an inbound scaling edge is irrelevant to every node. */
  lemma {:induction false} ScaledSeedIrrelevant(g: GraphDef, n: NodeId, seeds: Values, a: real)
    requires g.Declared() && Acyclic(Forward(g.edges)) && ScaledBy(g.edges, n)
    ensures Propagated(g, seeds[n := a]) == Propagated(g, seeds)
  {
    var forward := Forward(g.edges);
    ForwardDeclared(g.edges, g.NodeIds());
    ForwardScaled(g.edges, n);
    var init, init' := Initial(g.NodeIds(), seeds), Initial(g.NodeIds(), seeds[n := a]);
    var v := RawForward(forward, init);
    forall m | m in v
      ensures SolvesAt(forward, init', v, m)
    {
      assert SolvesAt(forward, init, v, m);
      if m == n {
        AccumulatorForgotten(forward, n, init[n], init'[n], v);
      }
    }
    SolutionUnique(forward, init', v, RawForward(forward, init'));
  }
}
