/** Counterfactual interventions do(X = x): sever the edges into a node, hold its value, propagate again. */
module DoOperator {
  import opened Rounding
  import opened Graph
  import opened StructuralModel
  import opened Propagation

  datatype DoIntervention = DoIntervention(nodeId: NodeId, fixedValue: real)

  function Severed(g: GraphDef, x: NodeId): GraphDef {
    GraphDef(g.nodes, Sever(g.edges, x))
  }

  class DoOperator {
    const graph: GraphDef
    const propagator: TopologicalPropagator

    constructor (g: GraphDef, p: TopologicalPropagator)
      ensures graph == g && propagator == p
    {
      graph := g;
      propagator := p;
    }

    /** Propagates the severed graph from the seeds with the node's value overwritten. */
    method Apply(seeds: Values, intervention: DoIntervention) returns (out: Values)
      requires graph.Declared()
      ensures Severed(graph, intervention.nodeId).Declared()
      ensures out == Propagated(Severed(graph, intervention.nodeId),
           seeds[intervention.nodeId := intervention.fixedValue])
    {
      var values := seeds[intervention.nodeId := intervention.fixedValue];
      var filteredEdges: seq<Edge> := [];
      assert graph.edges[0..] == graph.edges;
      for i := 0 to |graph.edges|
        invariant filteredEdges + Sever(graph.edges[i..], intervention.nodeId)
             == Sever(graph.edges, intervention.nodeId)
      {
        var e := graph.edges[i];
        assert graph.edges[i..][1..] == graph.edges[i + 1..];
        if e.to == intervention.nodeId {
          continue;
        }
        assert filteredEdges + ([e] + Sever(graph.edges[i + 1..], intervention.nodeId))
            == filteredEdges + [e] + Sever(graph.edges[i + 1..], intervention.nodeId);
        filteredEdges := filteredEdges + [e];
      }
      assert filteredEdges + [] == filteredEdges;
      SeverDeclared(graph.edges, intervention.nodeId, graph.NodeIds());
      var filtered := GraphDef(graph.nodes, filteredEdges);
      var filteredPropagator := new TopologicalPropagator(filtered);
      out := filteredPropagator.Propagate(values);
    }

    /** The change per node, over the nodes of either result. */
    method Compare(baseline: Values, intervened: Values) returns (deltas: Values)
      ensures deltas == Deltas(baseline, intervened)
    {
      deltas := map[];
      var allNodes := baseline.Keys + intervened.Keys;
      var todo := allNodes;
      while todo != {}
        invariant todo <= allNodes && deltas.Keys == allNodes - todo
        invariant forall n | n in deltas :: deltas[n] == Delta(baseline, intervened, n)
        decreases todo
      {
        var n :| n in todo;
        deltas := deltas[n := Round6((if n in intervened then intervened[n] else 0.0)
                                   - (if n in baseline then baseline[n] else 0.0))];
        todo := todo - {n};
      }
    }
  }

  function ValueAt(v: Values, n: NodeId): real {
    if n in v then v[n] else 0.0
  }

  function Delta(baseline: Values, intervened: Values, n: NodeId): real {
    Round6(ValueAt(intervened, n) - ValueAt(baseline, n))
  }

  function Deltas(baseline: Values, intervened: Values): Values {
    map n | n in baseline.Keys + intervened.Keys :: Delta(baseline, intervened, n)
  }

  // ----- Laws

  /** The edges of the severed graph, when the graph's forward edges are acyclic. */
  lemma SeveredShape(g: GraphDef, x: NodeId)
    requires g.Declared() && Acyclic(Forward(g.edges))
    ensures Severed(g, x).Declared()
    ensures Forward(Severed(g, x).edges) == Sever(Forward(g.edges), x)
    ensures FeedbackOnly(Severed(g, x).edges) == Sever(FeedbackOnly(g.edges), x)
    ensures EndpointsIn(Sever(Forward(g.edges), x), g.NodeIds())
         && EndpointsIn(Sever(FeedbackOnly(g.edges), x), g.NodeIds())
    ensures Acyclic(Sever(Forward(g.edges), x))
  {
    SeverDeclared(g.edges, x, g.NodeIds());
    ForwardDeclared(Severed(g, x).edges, g.NodeIds());
    SeverCommutes(g.edges, x);
    var forward := Forward(g.edges);
    forall e | e in Sever(forward, x) ensures e in forward {
      SeverMembers(forward, x, e);
    }
    AcyclicSubgraph(Sever(forward, x), forward);
  }

  /** What propagation of the severed graph is, when the graph's forward edges are acyclic. */
  lemma SeveredPropagation(g: GraphDef, x: NodeId, seeds: Values)
    requires g.Declared() && Acyclic(Forward(g.edges))
    ensures Severed(g, x).Declared()
    ensures var forward := Sever(Forward(g.edges), x);
            var feedback := Sever(FeedbackOnly(g.edges), x);
            var init := Initial(g.NodeIds(), seeds);
            && EndpointsIn(forward, init.Keys) && EndpointsIn(feedback, init.Keys)
            && Acyclic(forward)
            && Propagated(Severed(g, x), seeds) == Finish(FeedbackPass(feedback, RawForward(forward, init)))
  {
    SeveredShape(g, x);
  }

  /** A node nothing points into is not written by any pass. */
  lemma {:induction false} FeedbackSkips(edges: seq<Edge>, v: Values, n: NodeId)
    requires EndpointsIn(edges, v.Keys) && n in v
    requires forall e | e in edges :: e.to != n
    ensures FeedbackPass(edges, v)[n] == v[n]
  {
    if edges != [] {
      var e := edges[0];
      FeedbackSkips(edges[1..], v[e.to := ApplyFeedback(v[e.from], v[e.to], e.weight)], n);
    }
  }

  lemma {:induction false} VisitSkips(edges: seq<Edge>, m: NodeId, v: Values, n: NodeId)
    requires EndpointsIn(edges, v.Keys) && n in v
    requires forall e | e in edges :: e.to != n
    ensures VisitNode(edges, m, v)[n] == v[n]
  {
    if edges != [] {
      var e := edges[0];
      VisitSkips(edges[1..], m, if e.to == m then v[m := ApplyEdge(e.kind, v[e.from], v[m], e.weight)] else v, n);
    }
  }

  lemma {:induction false} ForwardSkips(order: seq<NodeId>, edges: seq<Edge>, v: Values, n: NodeId)
    requires EndpointsIn(edges, v.Keys) && n in v
    requires forall e | e in edges :: e.to != n
    ensures ForwardPass(order, edges, v)[n] == v[n]
  {
    if order != [] {
      VisitSkips(edges, order[0], v, n);
      ForwardSkips(order[1..], edges, VisitNode(edges, order[0], v), n);
    }
  }

  lemma {:induction false} InboundSkips(edges: seq<Edge>, n: NodeId, x: real, v: Values)
    requires EndpointsIn(edges, v.Keys)
    requires forall e | e in edges :: e.to != n
    ensures Inbound(edges, n, x, v) == x
  {
    if edges != [] {
      InboundSkips(edges[1..], n, x, v);
    }
  }

  /** Effectiveness: a declared intervened node ends at its held value, rounded and clamped. This
      needs no acyclicity: it also holds where the pass falls back to declaration order. */
  lemma {:induction false} Effectiveness(g: GraphDef, x: NodeId, seeds: Values, fixed: real)
    requires g.Declared() && Severed(g, x).Declared() && x in g.nodes
    ensures x in Propagated(Severed(g, x), seeds[x := fixed])
    ensures Propagated(Severed(g, x), seeds[x := fixed])[x] == Clamp(Round6(fixed))
  {
    var cut := Severed(g, x);
    var forward, feedback := Forward(cut.edges), FeedbackOnly(cut.edges);
    ForwardDeclared(cut.edges, cut.NodeIds());
    forall e | e in forward || e in feedback ensures e.to != x {
      ForwardMembers(cut.edges, e);
      SeverMembers(g.edges, x, e);
    }
    var init := Initial(cut.NodeIds(), seeds[x := fixed]);
    var raw := if Acyclic(forward) then RawForward(forward, init) else ForwardPass(cut.nodes, forward, init);
    if Acyclic(forward) {
      assert SolvesAt(forward, init, raw, x);
      InboundSkips(forward, x, init[x], raw);
    } else {
      ForwardSkips(cut.nodes, forward, init, x);
    }
    FeedbackSkips(feedback, raw, x);
  }

  // ----- Composition

  /** The solution stays a solution when one node is held at its own value. */
  lemma HeldSolution(edges: seq<Edge>, init: Values, x: NodeId, v: Values)
    requires Solves(edges, init, v) && x in init && Acyclic(edges)
    ensures EndpointsIn(Sever(edges, x), init.Keys) && Acyclic(Sever(edges, x))
    ensures RawForward(Sever(edges, x), init[x := v[x]]) == v
  {
    SeverDeclared(edges, x, init.Keys);
    forall e | e in Sever(edges, x) ensures e in edges {
      SeverMembers(edges, x, e);
    }
    AcyclicSubgraph(Sever(edges, x), edges);
    var init' := init[x := v[x]];
    forall m | m in v
      ensures SolvesAt(Sever(edges, x), init', v, m)
    {
      assert SolvesAt(edges, init, v, m);
      InboundSever(edges, x, m, init'[m], v);
    }
    SolutionUnique(Sever(edges, x), init', v, RawForward(Sever(edges, x), init'));
  }

  lemma InitialHeld(ids: set<NodeId>, seeds: Values, x: NodeId, fixed: real)
    requires x in ids
    ensures Initial(ids, seeds[x := fixed]) == Initial(ids, seeds)[x := fixed]
  {
  }

  /** Severing a node that is held at its own raw forward value leaves the raw forward values as they are. */
  lemma HeldRaw(forward: seq<Edge>, ids: set<NodeId>, x: NodeId, seeds: Values)
    requires EndpointsIn(forward, ids) && Acyclic(forward) && x in ids
    ensures EndpointsIn(Sever(forward, x), ids) && Acyclic(Sever(forward, x))
    ensures var raw := RawForward(forward, Initial(ids, seeds));
            RawForward(Sever(forward, x), Initial(ids, seeds[x := raw[x]])) == raw
  {
    var init := Initial(ids, seeds);
    var raw := RawForward(forward, init);
    InitialHeld(ids, seeds, x, raw[x]);
    HeldSolution(forward, init, x, raw);
  }

  /** Composition: holding a node that no feedback edge points into at its own raw forward value
      changes no node. */
  lemma {:induction false} Composition(g: GraphDef, x: NodeId, seeds: Values)
    requires g.Declared() && Acyclic(Forward(g.edges)) && x in g.nodes
    requires forall e | e in g.edges && e.kind.Feedback? :: e.to != x
    ensures Severed(g, x).Declared() && EndpointsIn(Forward(g.edges), g.NodeIds())
    ensures var fixed := RawForward(Forward(g.edges), Initial(g.NodeIds(), seeds))[x];
            Propagated(Severed(g, x), seeds[x := fixed]) == Propagated(g, seeds)
  {
    var feedback := FeedbackOnly(g.edges);
    ForwardDeclared(g.edges, g.NodeIds());
    SeveredShape(g, x);
    HeldRaw(Forward(g.edges), g.NodeIds(), x, seeds);
    forall e | e in feedback ensures e.to != x {
      ForwardMembers(g.edges, e);
    }
    SeverIdentity(feedback, x);
  }

  // ----- With inbound feedback: by how much the held node differs

  /** What feedback adds to n on the way, each source read as the pass finds it. */
  function Corrections(edges: seq<Edge>, v: Values, n: NodeId): real
    requires EndpointsIn(edges, v.Keys)
  {
    if edges == [] then 0.0
    else
      var e := edges[0];
      (if e.to == n then (v[e.from] - 0.5) * e.weight * 0.05 else 0.0)
      + Corrections(edges[1..], v[e.to := ApplyFeedback(v[e.from], v[e.to], e.weight)], n)
  }

  lemma {:induction false} FeedbackShift(edges: seq<Edge>, v: Values, n: NodeId)
    requires EndpointsIn(edges, v.Keys) && n in v
    ensures FeedbackPass(edges, v)[n] == v[n] + Corrections(edges, v, n)
  {
    if edges != [] {
      var e := edges[0];
      FeedbackShift(edges[1..], v[e.to := ApplyFeedback(v[e.from], v[e.to], e.weight)], n);
    }
  }

  /** The values of an acyclic graph before they are rounded and clamped. */
  ghost function Unrounded(g: GraphDef, seeds: Values): (v: Values)
    requires g.Declared() && Acyclic(Forward(g.edges))
    ensures v.Keys == g.NodeIds()
  {
    ForwardDeclared(g.edges, g.NodeIds());
    FeedbackPass(FeedbackOnly(g.edges), RawForward(Forward(g.edges), Initial(g.NodeIds(), seeds)))
  }

  /** Holding a node at its own raw forward value drops exactly the sum of its feedback corrections, so
      before rounding the node is unchanged if and only if they cancel. */
  lemma {:induction false} CompositionShift(g: GraphDef, x: NodeId, seeds: Values)
    requires g.Declared() && Acyclic(Forward(g.edges)) && x in g.nodes
    ensures EndpointsIn(Forward(g.edges), g.NodeIds()) && EndpointsIn(FeedbackOnly(g.edges), g.NodeIds())
    ensures Severed(g, x).Declared() && Acyclic(Forward(Severed(g, x).edges))
    ensures var raw := RawForward(Forward(g.edges), Initial(g.NodeIds(), seeds));
            var shift := Corrections(FeedbackOnly(g.edges), raw, x);
            var free, held := Unrounded(g, seeds)[x], Unrounded(Severed(g, x), seeds[x := raw[x]])[x];
            held == raw[x] && free == raw[x] + shift && (held == free <==> shift == 0.0)
  {
    ForwardDeclared(g.edges, g.NodeIds());
    SeveredShape(g, x);
    HeldRaw(Forward(g.edges), g.NodeIds(), x, seeds);
    var feedback, raw := FeedbackOnly(g.edges), RawForward(Forward(g.edges), Initial(g.NodeIds(), seeds));
    FeedbackShift(feedback, raw, x);
    SeverDeclared(feedback, x, g.NodeIds());
    forall e | e in Sever(feedback, x) ensures e.to != x {
      SeverMembers(feedback, x, e);
    }
    FeedbackSkips(Sever(feedback, x), raw, x);
    assert Unrounded(g, seeds) == FeedbackPass(feedback, raw);
    assert Unrounded(Severed(g, x), seeds[x := raw[x]]) == FeedbackPass(Sever(feedback, x), raw);
  }

  lemma {:induction false} FeedbackConcat(a: seq<Edge>, b: seq<Edge>, v: Values)
    requires EndpointsIn(a, v.Keys) && EndpointsIn(b, v.Keys)
    ensures EndpointsIn(a + b, v.Keys) && FeedbackPass(a + b, v) == FeedbackPass(b, FeedbackPass(a, v))
  {
    if a == [] {
      assert a + b == b;
    } else {
      assert (a + b)[0] == a[0] && (a + b)[1..] == a[1..] + b;
      var e := a[0];
      FeedbackConcat(a[1..], b, v[e.to := ApplyFeedback(v[e.from], v[e.to], e.weight)]);
    }
  }

  /** One edge moves its target exactly when its source is off one half and it has weight. */
  lemma EdgeCorrection(u: real, d: real, w: real)
    ensures ApplyFeedback(u, d, w) == d <==> u == 0.5 || w == 0.0
  {
    var t := u - 0.5;
    if t != 0.0 && w != 0.0 {
      NonZeroProduct(t, w);
    }
  }

  lemma NonZeroProduct(x: real, y: real)
    requires x != 0.0 && y != 0.0
    ensures x * y != 0.0
  {
    assert x * y / y == x;
  }

  /** A single inbound feedback edge leaves its target as it was exactly when the source stands at one
      half as the edge is applied, or the edge has no weight. */
  lemma {:induction false} OneInboundFeedback(before: seq<Edge>, e: Edge, after: seq<Edge>, v: Values)
    requires EndpointsIn(before, v.Keys) && EndpointsIn([e], v.Keys) && EndpointsIn(after, v.Keys)
    requires e.from in v && e.to in v
    requires forall f | f in before || f in after :: f.to != e.to
    ensures EndpointsIn(before + [e] + after, v.Keys)
    ensures FeedbackPass(before + [e] + after, v)[e.to] == v[e.to]
       <==> FeedbackPass(before, v)[e.from] == 0.5 || e.weight == 0.0
  {
    FeedbackConcat(before + [e], after, v);
    FeedbackConcat(before, [e], v);
    var w := FeedbackPass(before, v);
    FeedbackSkips(before, v, e.to);
    OneFeedbackEdge(e, w);
    FeedbackSkips(after, FeedbackPass([e], w), e.to);
    EdgeCorrection(w[e.from], w[e.to], e.weight);
  }

  /** Here the lost correction shows in the report. */
  lemma {:induction false} CompositionNeedsNoFeedback(g: GraphDef, seeds: Values)
    requires g == GraphDef(["a", "b"], [Edge("a", "b", Feedback, 1.0)])
    requires seeds == map["a" := 1.0, "b" := 0.5]
    ensures g.Declared() && Severed(g, "b").Declared() && Acyclic(Forward(g.edges))
    ensures EndpointsIn(Forward(g.edges), g.NodeIds())
    ensures RawForward(Forward(g.edges), Initial(g.NodeIds(), seeds))["b"] == 0.5
    ensures Propagated(Severed(g, "b"), seeds["b" := 0.5])["b"] < Propagated(g, seeds)["b"]
  {
    var edge := g.edges[0];
    assert g.edges[1..] == [];
    assert "a" in g.nodes && "b" in g.nodes by { assert g.nodes[0] == "a" && g.nodes[1] == "b"; }
    var rank: NodeId -> nat := n => 0;
    assert IsRank(rank, Forward(g.edges));
    var raw := RawForward([], Initial(g.NodeIds(), seeds));
    assert SolvesAt([], Initial(g.NodeIds(), seeds), raw, "b") && SolvesAt([], Initial(g.NodeIds(), seeds), raw, "a");
    OneFeedbackEdge(edge, raw);
    assert FeedbackOnly(g.edges) == [edge];
    assert Sever(g.edges, "b") == [];
    Effectiveness(g, "b", seeds, 0.5);
  }

  lemma OneFeedbackEdge(e: Edge, v: Values)
    requires e.from in v && e.to in v
    ensures FeedbackPass([e], v) == v[e.to := ApplyFeedback(v[e.from], v[e.to], e.weight)]
  {
    assert [e][1..] == [];
  }

  /** Exchanging the two results negates every change. */
  lemma {:induction false} DeltaAntisymmetric(a: Values, b: Values, n: NodeId)
    ensures Delta(b, a, n) == -Delta(a, b, n)
  {
    QuantizeOdd(ValueAt(b, n) - ValueAt(a, n), 1000000.0);
    assert ValueAt(a, n) - ValueAt(b, n) == -(ValueAt(b, n) - ValueAt(a, n));
  }

  /** A node that only one of the results knows counts as zero in the other. */
  lemma {:induction false} AbsentCountsZero(baseline: Values, intervened: Values, n: NodeId)
    ensures n in intervened && n !in baseline ==> Deltas(baseline, intervened)[n] == Round6(intervened[n])
    ensures n in baseline && n !in intervened ==> Deltas(baseline, intervened)[n] == -Round6(baseline[n])
  {
    if n in baseline {
      QuantizeOdd(baseline[n], 1000000.0);
      assert 0.0 - baseline[n] == -baseline[n];
    }
  }
}
