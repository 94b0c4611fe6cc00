/** Order and range of propagated values. These hold for every visiting order, cyclic graphs included. */
module Ranges {
  import opened RealArith
  import opened Rounding
  import opened Graph
  import opened StructuralModel

  ghost predicate Below(v: Values, w: Values) {
    v.Keys == w.Keys && forall n | n in v :: v[n] <= w[n]
  }

  lemma ApplyEdgeMonotone(kind: EdgeType, u: real, d: real, u': real, d': real, w: real)
    requires u <= u' && d <= d' && w >= 0.0 && !kind.Suppresses?
    ensures ApplyEdge(kind, u, d, w) <= ApplyEdge(kind, u', d', w)
  {
    MulMono(u, u', w);
    EdgeByCase(kind, u, d, w, u * w);
    EdgeByCase(kind, u', d', w, u' * w);
  }

  lemma EdgeByCase(kind: EdgeType, u: real, d: real, w: real, flow: real)
    requires !kind.Suppresses? && flow == u * w
    ensures ApplyEdge(kind, u, d, w) == if kind.Scales() then flow else if kind.Adds() then d + flow else d
  {
  }

  lemma ApplyFeedbackMonotone(u: real, d: real, u': real, d': real, w: real)
    requires u <= u' && d <= d' && w >= 0.0
    ensures ApplyFeedback(u, d, w) <= ApplyFeedback(u', d', w)
  {
    MulMono(u - 0.5, u' - 0.5, w);
  }

  lemma {:induction false} VisitMonotone(edges: seq<Edge>, n: NodeId, v: Values, w: Values)
    requires EndpointsIn(edges, v.Keys) && UnitWeights(edges) && Below(v, w)
    requires forall e | e in edges :: !e.kind.Suppresses?
    ensures Below(VisitNode(edges, n, v), VisitNode(edges, n, w))
  {
    if edges != [] {
      var e := edges[0];
      ApplyEdgeMonotone(e.kind, v[e.from], v[e.to], w[e.from], w[e.to], e.weight);
      if e.to == n {
        VisitMonotone(edges[1..], n, v[n := ApplyEdge(e.kind, v[e.from], v[n], e.weight)],
                      w[n := ApplyEdge(e.kind, w[e.from], w[n], e.weight)]);
      } else {
        VisitMonotone(edges[1..], n, v, w);
      }
    }
  }

  lemma {:induction false} ForwardPassMonotone(order: seq<NodeId>, edges: seq<Edge>, v: Values, w: Values)
    requires EndpointsIn(edges, v.Keys) && UnitWeights(edges) && Below(v, w)
    requires forall e | e in edges :: !e.kind.Suppresses?
    ensures Below(ForwardPass(order, edges, v), ForwardPass(order, edges, w))
  {
    if order != [] {
      VisitMonotone(edges, order[0], v, w);
      ForwardPassMonotone(order[1..], edges, VisitNode(edges, order[0], v), VisitNode(edges, order[0], w));
    }
  }

  lemma {:induction false} FeedbackPassMonotone(edges: seq<Edge>, v: Values, w: Values)
    requires EndpointsIn(edges, v.Keys) && UnitWeights(edges) && Below(v, w)
    ensures Below(FeedbackPass(edges, v), FeedbackPass(edges, w))
  {
    if edges != [] {
      var e := edges[0];
      ApplyFeedbackMonotone(v[e.from], v[e.to], w[e.from], w[e.to], e.weight);
      FeedbackPassMonotone(edges[1..], v[e.to := ApplyFeedback(v[e.from], v[e.to], e.weight)],
                           w[e.to := ApplyFeedback(w[e.from], w[e.to], e.weight)]);
    }
  }

  lemma FinishMonotone(v: Values, w: Values)
    requires Below(v, w)
    ensures Below(Finish(v), Finish(w))
  {
    forall n | n in v ensures Finish(v)[n] <= Finish(w)[n] {
      Round6Monotone(v[n], w[n]);
    }
  }

  /** Without suppressing edges, pointwise larger seeds give pointwise larger results. */
  lemma {:induction false} OutcomeMonotone(g: GraphDef, order: seq<NodeId>, seeds: Values, seeds': Values)
    requires g.Declared() && UnitWeights(g.edges)
    requires forall e | e in g.edges :: !e.kind.Suppresses?
    requires Below(Initial(g.NodeIds(), seeds), Initial(g.NodeIds(), seeds'))
    ensures Below(Outcome(g, order, seeds), Outcome(g, order, seeds'))
  {
    var forward, feedback := Forward(g.edges), FeedbackOnly(g.edges);
    ForwardDeclared(g.edges, g.NodeIds());
    forall e | e in forward || e in feedback ensures e in g.edges {
      ForwardMembers(g.edges, e);
    }
    var init, init' := Initial(g.NodeIds(), seeds), Initial(g.NodeIds(), seeds');
    ForwardPassMonotone(order, forward, init, init');
    var v, w := ForwardPass(order, forward, init), ForwardPass(order, forward, init');
    FeedbackPassMonotone(feedback, v, w);
    FinishMonotone(FeedbackPass(feedback, v), FeedbackPass(feedback, w));
  }

  // ----- Two nodes and one edge, for the counterexamples

  function PairGraph(kind: EdgeType): GraphDef {
    GraphDef(["a", "b"], [Edge("a", "b", kind, 1.0)])
  }

  function PairSeeds(a: real, b: real): Values {
    map["a" := a, "b" := b]
  }

  lemma PairDeclared(kind: EdgeType, a: real, b: real)
    ensures PairGraph(kind).Declared() && Initial(PairGraph(kind).NodeIds(), PairSeeds(a, b)) == PairSeeds(a, b)
    ensures EndpointsIn(Forward(PairGraph(kind).edges), PairSeeds(a, b).Keys)
  {
    var g := PairGraph(kind);
    assert g.nodes[0] == "a" && g.nodes[1] == "b";
    ForwardDeclared(g.edges, g.NodeIds());
  }

  lemma VisitOneEdge(edges: seq<Edge>, n: NodeId, v: Values)
    requires |edges| == 1 && EndpointsIn(edges, v.Keys) && n in v
    ensures var e := edges[0];
            && e in edges && e.from in v
            && VisitNode(edges, n, v) == if e.to == n then v[n := ApplyEdge(e.kind, v[e.from], v[n], e.weight)] else v
  {
    assert edges[0] in edges && edges[1..] == [];
  }

  lemma NoFeedbackIn(edges: seq<Edge>)
    requires |edges| == 1 && !edges[0].kind.Feedback?
    ensures Forward(edges) == edges && FeedbackOnly(edges) == []
  {
    assert edges[1..] == [];
    assert Forward(edges[1..]) == [] && FeedbackOnly(edges[1..]) == [];
  }

  lemma PairPass(edges: seq<Edge>, v: Values)
    requires |edges| == 1 && edges[0].from == "a" && edges[0].to == "b" && EndpointsIn(edges, v.Keys)
    ensures "a" in v && "b" in v
    ensures ForwardPass(["a", "b"], edges, v) == v["b" := ApplyEdge(edges[0].kind, v["a"], v["b"], edges[0].weight)]
  {
    assert edges[0] in edges;
    VisitOneEdge(edges, "a", v);
    VisitOneEdge(edges, "b", v);
    assert ["a", "b"][1..] == ["b"] && ["b"][1..] == [];
    assert ForwardPass(["b"], edges, v) == ForwardPass([], edges, VisitNode(edges, "b", v));
  }

  /** The raw values, and that no feedback follows. */
  lemma PairValues(kind: EdgeType, a: real, b: real)
    requires !kind.Feedback?
    ensures PairGraph(kind).Declared() && EndpointsIn(Forward(PairGraph(kind).edges), PairSeeds(a, b).Keys)
    ensures ForwardPass(["a", "b"], Forward(PairGraph(kind).edges), PairSeeds(a, b))
         == PairSeeds(a, b)["b" := ApplyEdge(kind, a, b, 1.0)]
    ensures Outcome(PairGraph(kind), ["a", "b"], PairSeeds(a, b))
         == Finish(PairSeeds(a, b)["b" := ApplyEdge(kind, a, b, 1.0)])
  {
    PairDeclared(kind, a, b);
    var edges := PairGraph(kind).edges;
    NoFeedbackIn(edges);
    PairPass(edges, PairSeeds(a, b));
  }

  /** The reported value of the edge's target. */
  function PairReport(kind: EdgeType, a: real, b: real): real {
    PairDeclared(kind, a, b);
    Outcome(PairGraph(kind), ["a", "b"], PairSeeds(a, b))["b"]
  }

  lemma PairTarget(kind: EdgeType, a: real, b: real, raw: real, shown: real)
    requires !kind.Feedback? && raw == ApplyEdge(kind, a, b, 1.0)
    requires (raw <= 0.0 && shown == 0.0) || (raw >= 1.0 && shown == 1.0)
    ensures PairGraph(kind).Declared() && EndpointsIn(Forward(PairGraph(kind).edges), PairSeeds(a, b).Keys)
    ensures ForwardPass(["a", "b"], Forward(PairGraph(kind).edges), PairSeeds(a, b))["b"] == raw
    ensures PairReport(kind, a, b) == shown
  {
    PairValues(kind, a, b);
    BeyondUnitReported(raw, shown);
  }

  /** One suppressing edge is enough to lose monotonicity: raising its source from zero to one takes a
      full target from one to zero. */
  lemma {:induction false} SuppressionBreaksOrder(kind: EdgeType, low: real, high: real, target: real)
    requires kind.Suppresses? && low <= 0.0 && high >= 1.0 && target >= 1.0
    ensures Below(PairSeeds(low, target), PairSeeds(high, target))
    ensures PairReport(kind, low, target) == 1.0 && PairReport(kind, high, target) == 0.0
  {
    NotSuppressed(kind, low, target);
    FullySuppressed(kind, high, target);
  }

  lemma NotSuppressed(kind: EdgeType, low: real, target: real)
    requires kind.Suppresses? && low <= 0.0 && target >= 1.0
    ensures PairReport(kind, low, target) == 1.0
  {
    MulNonNeg(target, -low);
    PairTarget(kind, low, target, ApplyEdge(kind, low, target, 1.0), 1.0);
  }

  lemma FullySuppressed(kind: EdgeType, high: real, target: real)
    requires kind.Suppresses? && high >= 1.0 && target >= 1.0
    ensures PairReport(kind, high, target) == 0.0
  {
    MulNonNeg(target, high - 1.0);
    PairTarget(kind, high, target, ApplyEdge(kind, high, target, 1.0), 0.0);
  }

  // ----- Range

  ghost predicate InUnit(v: Values) {
    forall n | n in v :: 0.0 <= v[n] <= 1.0
  }

  lemma {:induction false} VisitInUnit(edges: seq<Edge>, n: NodeId, v: Values)
    requires EndpointsIn(edges, v.Keys) && UnitWeights(edges) && InUnit(v)
    requires forall e | e in edges :: !e.kind.Adds()
    ensures InUnit(VisitNode(edges, n, v))
  {
    if edges != [] {
      var e := edges[0];
      ProductInUnit(v[e.from], e.weight);
      ProductInUnit(v[e.to], 1.0 - v[e.from] * e.weight);
      VisitInUnit(edges[1..], n, if e.to == n then v[n := ApplyEdge(e.kind, v[e.from], v[n], e.weight)] else v);
    }
  }

  /** From arguments in [0, 1] an edge leaves the unit interval exactly when it adds beyond one. */
  lemma {:induction false} EdgeInUnit(kind: EdgeType, u: real, d: real, w: real)
    requires 0.0 <= u <= 1.0 && 0.0 <= d <= 1.0 && 0.0 <= w <= 1.0
    ensures 0.0 <= ApplyEdge(kind, u, d, w) <= 1.0 <==> !(kind.Adds() && d + u * w > 1.0)
  {
    ProductInUnit(u, w);
    ProductInUnit(d, 1.0 - u * w);
  }

  /** No clamp follows an edge: here the raw value doubles the bound, and only the report is clamped. */
  lemma {:induction false} AddingLeavesUnit(seeds: Values)
    requires seeds == PairSeeds(1.0, 1.0)
    ensures PairGraph(Reinforces).Declared() && EndpointsIn(Forward(PairGraph(Reinforces).edges), seeds.Keys)
    ensures ForwardPass(["a", "b"], Forward(PairGraph(Reinforces).edges), seeds)["b"] == 2.0
    ensures PairReport(Reinforces, 1.0, 1.0) == 1.0
  {
    PairTarget(Reinforces, 1.0, 1.0, 2.0, 1.0);
  }

  /** Without additive edges, seeds in [0, 1] keep every raw forward value in [0, 1]. */
  lemma {:induction false} ForwardInUnit(order: seq<NodeId>, edges: seq<Edge>, v: Values)
    requires EndpointsIn(edges, v.Keys) && UnitWeights(edges) && InUnit(v)
    requires forall e | e in edges :: !e.kind.Adds()
    ensures InUnit(ForwardPass(order, edges, v))
  {
    if order != [] {
      VisitInUnit(edges, order[0], v);
      ForwardInUnit(order[1..], edges, VisitNode(edges, order[0], v));
    }
  }

  ghost predicate WithinOfHalf(v: Values, radius: real) {
    forall n | n in v :: -radius <= v[n] - 0.5 <= radius
  }

  /** 1.05 to the k. */
  function Stretch(k: nat): (r: real)
    ensures r >= 1.0
  {
    if k == 0 then 1.0 else 1.05 * Stretch(k - 1)
  }

  lemma FeedbackStep(u: real, d: real, w: real, radius: real)
    requires -radius <= u - 0.5 <= radius && -radius <= d - 0.5 <= radius && 0.0 <= w <= 1.0
    ensures -1.05 * radius <= ApplyFeedback(u, d, w) - 0.5 <= 1.05 * radius
  {
    ScaledWithin(u - 0.5, w, radius);
  }

  /** Each feedback edge stretches the distance from one half by at most a twentieth. */
  lemma {:induction false} FeedbackRange(edges: seq<Edge>, v: Values, k: nat)
    requires EndpointsIn(edges, v.Keys) && UnitWeights(edges)
    requires WithinOfHalf(v, 0.5 * Stretch(k))
    ensures WithinOfHalf(FeedbackPass(edges, v), 0.5 * Stretch(k + |edges|))
  {
    if edges != [] {
      var e := edges[0];
      FeedbackStep(v[e.from], v[e.to], e.weight, 0.5 * Stretch(k));
      FeedbackRange(edges[1..], v[e.to := ApplyFeedback(v[e.from], v[e.to], e.weight)], k + 1);
    }
  }

  /** Without additive edges and with seeds in [0, 1], after m feedback edges every value that is about
      to be rounded lies within one half times 1.05 to the m of one half. */
  lemma {:induction false} RawRange(g: GraphDef, order: seq<NodeId>, seeds: Values)
    requires g.Declared() && UnitWeights(g.edges)
    requires forall e | e in g.edges :: !e.kind.Adds()
    requires InUnit(Initial(g.NodeIds(), seeds))
    ensures EndpointsIn(Forward(g.edges), g.NodeIds()) && EndpointsIn(FeedbackOnly(g.edges), g.NodeIds())
    ensures var raw := ForwardPass(order, Forward(g.edges), Initial(g.NodeIds(), seeds));
            && InUnit(raw)
            && WithinOfHalf(FeedbackPass(FeedbackOnly(g.edges), raw), 0.5 * Stretch(|FeedbackOnly(g.edges)|))
  {
    var forward, feedback, init := Forward(g.edges), FeedbackOnly(g.edges), Initial(g.NodeIds(), seeds);
    ForwardDeclared(g.edges, g.NodeIds());
    forall e | e in forward || e in feedback ensures e in g.edges {
      ForwardMembers(g.edges, e);
    }
    RawRangeOf(order, forward, feedback, init);
  }

  lemma RawRangeOf(order: seq<NodeId>, forward: seq<Edge>, feedback: seq<Edge>, init: Values)
    requires EndpointsIn(forward, init.Keys) && EndpointsIn(feedback, init.Keys)
    requires UnitWeights(forward) && UnitWeights(feedback) && InUnit(init)
    requires forall e | e in forward :: !e.kind.Adds()
    ensures var raw := ForwardPass(order, forward, init);
            && InUnit(raw)
            && WithinOfHalf(FeedbackPass(feedback, raw), 0.5 * Stretch(|feedback|))
  {
    ForwardInUnit(order, forward, init);
    UnitFeedbackRange(feedback, ForwardPass(order, forward, init));
  }

  lemma UnitFeedbackRange(feedback: seq<Edge>, raw: Values)
    requires EndpointsIn(feedback, raw.Keys) && UnitWeights(feedback) && InUnit(raw)
    ensures WithinOfHalf(FeedbackPass(feedback, raw), 0.5 * Stretch(|feedback|))
  {
    assert WithinOfHalf(raw, 0.5 * Stretch(0));
    FeedbackRange(feedback, raw, 0);
  }

  /** Every reported score is a grid point of [0, 1]. */
  lemma FinishOnGrid(v: Values, n: NodeId)
    requires n in v
    ensures 0.0 <= Finish(v)[n] <= 1.0 && OnGrid6(Finish(v)[n])
  {
    UnitOnGrid();
    Round6OnGrid(v[n]);
  }

  lemma {:induction false} PropagatedOnGrid(g: GraphDef, seeds: Values, n: NodeId)
    requires g.Declared() && n in Propagated(g, seeds)
    ensures 0.0 <= Propagated(g, seeds)[n] <= 1.0 && OnGrid6(Propagated(g, seeds)[n])
  {
    ForwardDeclared(g.edges, g.NodeIds());
    var forward, init := Forward(g.edges), Initial(g.NodeIds(), seeds);
    var raw := if Acyclic(forward) then RawForward(forward, init) else ForwardPass(g.nodes, forward, init);
    FinishOnGrid(FeedbackPass(FeedbackOnly(g.edges), raw), n);
  }
}
