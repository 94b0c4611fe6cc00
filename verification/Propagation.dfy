/** The topological propagator: Kahn's algorithm, then the in-place passes. */
module Propagation {
  import opened Graph
  import opened Sequences
  import opened StructuralModel

  // ----- Counting inbound edges and listing children

  /** The number of edges into n that leave a node not yet emitted. */
  function InDegree(edges: seq<Edge>, n: NodeId, emitted: set<NodeId>): nat {
    if edges == [] then 0
    else (if edges[0].to == n && edges[0].from !in emitted then 1 else 0) + InDegree(edges[1..], n, emitted)
  }

  /** The targets of the edges that leave n, one entry per parallel edge. */
  function Children(edges: seq<Edge>, n: NodeId): seq<NodeId> {
    if edges == [] then []
    else if edges[0].from == n then [edges[0].to] + Children(edges[1..], n)
    else Children(edges[1..], n)
  }

  function Count(s: seq<NodeId>, n: NodeId): nat {
    if s == [] then 0 else (if s[0] == n then 1 else 0) + Count(s[1..], n)
  }

  lemma {:induction false} InDegreeZero(edges: seq<Edge>, n: NodeId, emitted: set<NodeId>)
    ensures InDegree(edges, n, emitted) == 0 <==> forall e | e in edges && e.to == n :: e.from in emitted
  {
    if edges != [] {
      InDegreeZero(edges[1..], n, emitted);
      assert forall e :: e in edges <==> e == edges[0] || e in edges[1..];
    }
  }

  /** Emitting x lowers n's count by the number of edges from x to n. */
  lemma {:induction false} EmitLowers(edges: seq<Edge>, n: NodeId, emitted: set<NodeId>, x: NodeId)
    requires x !in emitted
    ensures InDegree(edges, n, emitted) == InDegree(edges, n, emitted + {x}) + Count(Children(edges, x), n)
  {
    if edges != [] {
      EmitLowers(edges[1..], n, emitted, x);
      assert edges[0].from == x ==> Children(edges, x)[1..] == Children(edges[1..], x);
    }
  }

  lemma {:induction false} ChildrenDeclared(edges: seq<Edge>, n: NodeId, ids: set<NodeId>)
    requires EndpointsIn(edges, ids)
    ensures forall c | c in Children(edges, n) :: c in ids
  {
    if edges != [] {
      ChildrenDeclared(edges[1..], n, ids);
    }
  }

  function InboundWeight(edges: seq<Edge>, n: NodeId): real {
    if edges == [] then 0.0
    else (if edges[0].to == n then edges[0].weight else 0.0) + InboundWeight(edges[1..], n)
  }

  /** When no declared node outside emitted is free of unemitted sources, the graph has a cycle. */
  lemma {:induction false} StuckHasNoRank(edges: seq<Edge>, rank: NodeId -> nat, ids: set<NodeId>,
          emitted: set<NodeId>, n: NodeId)
    requires EndpointsIn(edges, ids) && n in ids - emitted
    requires forall m | m in ids - emitted :: InDegree(edges, m, emitted) != 0
    ensures !IsRank(rank, edges)
    decreases rank(n)
  {
    if IsRank(rank, edges) {
      InDegreeZero(edges, n, emitted);
      var e :| e in edges && e.to == n && e.from !in emitted;
      StuckHasNoRank(edges, rank, ids, emitted, e.from);
    }
  }

  // ----- Kahn's algorithm

  /** The queue holds exactly the free nodes, once each; degrees count the edges from unemitted
      nodes plus those of the node being emitted that are still to be taken off. */
  ghost predicate KahnInvariant(ids: set<NodeId>, edges: seq<Edge>, order: seq<NodeId>, queue: seq<NodeId>,
                                inDegree: map<NodeId, int>, pendingKids: seq<NodeId>)
  {
    && Distinct(order) && Elements(order) <= ids && Ordered(order, edges)
    && inDegree.Keys == ids
    && (forall n | n in ids :: inDegree[n] == InDegree(edges, n, Elements(order)) + Count(pendingKids, n))
    && Distinct(queue)
    && (forall n :: n in queue <==> n in ids && n !in order && inDegree[n] == 0)
    && (forall n | n in order :: inDegree[n] == 0)
  }

  lemma {:induction false} PopKeepsInvariant(ids: set<NodeId>, edges: seq<Edge>, order: seq<NodeId>, queue: seq<NodeId>,
                          inDegree: map<NodeId, int>)
    requires EndpointsIn(edges, ids) && queue != []
    requires KahnInvariant(ids, edges, order, queue, inDegree, [])
    ensures KahnInvariant(ids, edges, order + [queue[0]], queue[1..], inDegree, Children(edges, queue[0]))
    ensures queue[0] in ids && queue[0] !in order && Elements(order + [queue[0]]) == Elements(order) + {queue[0]}
    ensures forall c | c in Children(edges, queue[0]) :: c in ids
  {
    var node := queue[0];
    var emitted := Elements(order);
    ChildrenDeclared(edges, node, ids);
    assert Elements(order + [node]) == emitted + {node};
    forall n | n in ids
      ensures inDegree[n] == InDegree(edges, n, emitted + {node}) + Count(Children(edges, node), n)
    {
      EmitLowers(edges, n, emitted, node);
    }
    InDegreeZero(edges, node, emitted);
    forall k, e | 0 <= k <= |order| && e in edges && e.to == (order + [node])[k]
      ensures e.from in (order + [node])[..k]
    {
      if k < |order| {
        assert (order + [node])[..k] == order[..k];
      } else {
        assert (order + [node])[..k] == order;
        assert e.from in emitted;
      }
    }
  }

  lemma ReleaseKeepsInvariant(ids: set<NodeId>, edges: seq<Edge>, order: seq<NodeId>, queue: seq<NodeId>,
                              inDegree: map<NodeId, int>, kids: seq<NodeId>)
    requires kids != [] && kids[0] in ids
    requires KahnInvariant(ids, edges, order, queue, inDegree, kids)
    ensures var lowered := inDegree[kids[0] := inDegree[kids[0]] - 1];
            KahnInvariant(ids, edges, order, if lowered[kids[0]] == 0 then queue + [kids[0]] else queue,
                          lowered, kids[1..])
  {
    assert Count(kids, kids[0]) >= 1;
    assert kids[0] !in order && kids[0] !in queue;
  }

  /** Degrees and children of the edges already seen, together with those still ahead, make the whole. */
  ghost predicate Tallied(ids: set<NodeId>, edges: seq<Edge>, ahead: seq<Edge>,
                          inDegree: map<NodeId, int>, children: map<NodeId, seq<NodeId>>)
  {
    && inDegree.Keys == children.Keys == ids
    && (forall n | n in ids :: inDegree[n] + InDegree(ahead, n, {}) == InDegree(edges, n, {}))
    && (forall n | n in ids :: children[n] + Children(ahead, n) == Children(edges, n))
  }

  lemma TallyEdge(ids: set<NodeId>, edges: seq<Edge>, ahead: seq<Edge>,
                  inDegree: map<NodeId, int>, children: map<NodeId, seq<NodeId>>)
    requires ahead != [] && ahead[0].from in ids && ahead[0].to in ids
    requires Tallied(ids, edges, ahead, inDegree, children)
    ensures var e := ahead[0];
            Tallied(ids, edges, ahead[1..], inDegree[e.to := inDegree[e.to] + 1],
                    children[e.from := children[e.from] + [e.to]])
  {
    var e, rest := ahead[0], ahead[1..];
    var before := children[e.from];
    assert before + ([e.to] + Children(rest, e.from)) == before + [e.to] + Children(rest, e.from);
  }

  /** The in-degree and the child list of every declared node. */
  method CountDegrees(ids: set<NodeId>, edges: seq<Edge>)
    returns (inDegree: map<NodeId, int>, children: map<NodeId, seq<NodeId>>)
    requires EndpointsIn(edges, ids)
    ensures inDegree.Keys == children.Keys == ids
    ensures forall n | n in ids :: inDegree[n] == InDegree(edges, n, {}) && children[n] == Children(edges, n)
  {
    inDegree := map n | n in ids :: 0;
    children := map n | n in ids :: [];
    assert edges[0..] == edges;
    assert forall n :: [] + Children(edges, n) == Children(edges, n);
    for i := 0 to |edges|
      invariant Tallied(ids, edges, edges[i..], inDegree, children)
    {
      TallyEdge(ids, edges, edges[i..], inDegree, children);
      var e := edges[i];
      assert edges[i..][1..] == edges[i + 1..];
      inDegree := inDegree[e.to := inDegree[e.to] + 1];
      children := children[e.from := children[e.from] + [e.to]];
    }
    assert forall n | n in ids :: children[n] + [] == children[n];
  }

  /** The nodes without inbound edges, in an arbitrary order. */
  method FreeNodes(ids: set<NodeId>, inDegree: map<NodeId, int>) returns (queue: seq<NodeId>)
    requires inDegree.Keys == ids
    ensures Distinct(queue)
    ensures forall n :: n in queue <==> n in ids && inDegree[n] == 0
  {
    queue := [];
    var todo := ids;
    while todo != {}
      invariant todo <= ids && Distinct(queue)
      invariant forall n :: n in queue <==> n in ids - todo && inDegree[n] == 0
      decreases todo
    {
      var n :| n in todo;
      todo := todo - {n};
      if inDegree[n] == 0 {
        queue := queue + [n];
      }
    }
  }

  /** Takes the emitted node's edges off its children's degrees and queues those that became free. */
  method Release(kids: seq<NodeId>, inDegree: map<NodeId, int>, queue: seq<NodeId>,
                 ghost ids: set<NodeId>, ghost edges: seq<Edge>, ghost order: seq<NodeId>)
    returns (inDegree': map<NodeId, int>, queue': seq<NodeId>)
    requires forall c | c in kids :: c in ids
    requires KahnInvariant(ids, edges, order, queue, inDegree, kids)
    ensures KahnInvariant(ids, edges, order, queue', inDegree', [])
  {
    inDegree', queue' := inDegree, queue;
    assert kids[0..] == kids;
    for j := 0 to |kids|
      invariant KahnInvariant(ids, edges, order, queue', inDegree', kids[j..])
    {
      ReleaseKeepsInvariant(ids, edges, order, queue', inDegree', kids[j..]);
      var child := kids[j];
      assert kids[j..][1..] == kids[j + 1..];
      inDegree' := inDegree'[child := inDegree'[child] - 1];
      if inDegree'[child] == 0 {
        queue' := queue' + [child];
      }
    }
  }

  lemma {:induction false} StuckIsCyclic(edges: seq<Edge>, ids: set<NodeId>, order: seq<NodeId>,
          inDegree: map<NodeId, int>)
    requires EndpointsIn(edges, ids) && KahnInvariant(ids, edges, order, [], inDegree, [])
    ensures |order| == |ids| ==> TopoSorted(order, ids, edges) && Acyclic(edges)
    ensures |order| != |ids| ==> !Acyclic(edges)
  {
    DistinctCardinality(order);
    if |order| == |ids| {
      SubsetOfEqualSize(Elements(order), ids);
      TopoSortedIsAcyclic(order, ids, edges);
    } else {
      assert ids - Elements(order) != {} by {
        assert ids == Elements(order) + (ids - Elements(order));
        assert Elements(order) + {} == Elements(order);
      }
      var n :| n in ids - Elements(order);
      forall m | m in ids - Elements(order)
        ensures InDegree(edges, m, Elements(order)) != 0
      {
        assert m !in order;
        assert m !in [];
      }
      forall rank: NodeId -> nat ensures !IsRank(rank, edges) {
        StuckHasNoRank(edges, rank, ids, Elements(order), n);
      }
    }
  }

  /** Nodes in an order in which every forward edge goes strictly forward if there is one, otherwise
      in declaration order. The set of ids is traversed in an arbitrary order. */
  method Kahn(nodes: seq<NodeId>, edges: seq<Edge>) returns (result: seq<NodeId>)
    requires EndpointsIn(edges, Elements(nodes))
    ensures Acyclic(edges) ==> TopoSorted(result, Elements(nodes), edges)
    ensures !Acyclic(edges) ==> result == nodes
  {
    var ids := Elements(nodes);
    var inDegree, children := CountDegrees(ids, edges);
    var queue := FreeNodes(ids, inDegree);
    var order: seq<NodeId> := [];
    assert Elements(order) == {};
    while queue != []
      invariant KahnInvariant(ids, edges, order, queue, inDegree, [])
      decreases ids - Elements(order)
    {
      PopKeepsInvariant(ids, edges, order, queue, inDegree);
      var node := queue[0];
      order := order + [node];
      inDegree, queue := Release(children[node], inDegree, queue[1..], ids, edges, order);
    }
    StuckIsCyclic(edges, ids, order, inDegree);
    if |order| != |ids| {
      return nodes;
    }
    return order;
  }

  // ----- The propagator

  /** An order of the kind Kahn's algorithm settles on visits declared nodes and gives the graph's meaning. */
  lemma OrderSettled(g: GraphDef, order: seq<NodeId>, seeds: Values)
    requires g.Declared()
    requires if Acyclic(Forward(g.edges)) then TopoSorted(order, g.NodeIds(), Forward(g.edges)) else order == g.nodes
    ensures Outcome(g, order, seeds) == Propagated(g, seeds)
  {
    if Acyclic(Forward(g.edges)) {
      OrderIndependence(g, order, seeds);
    }
  }

  class TopologicalPropagator {
    const graph: GraphDef
    const nodeIds: set<NodeId>
    const feedbackEdges: seq<Edge>
    const fwdEdges: seq<Edge>
    const topoOrder: seq<NodeId>
    const inboundWeightSum: map<NodeId, real>

    ghost predicate Valid() {
      && graph.Declared()
      && nodeIds == graph.NodeIds()
      && feedbackEdges == FeedbackOnly(graph.edges)
      && fwdEdges == Forward(graph.edges)
      && (if Acyclic(fwdEdges) then TopoSorted(topoOrder, nodeIds, fwdEdges) else topoOrder == graph.nodes)
      && inboundWeightSum.Keys == nodeIds
      && forall n | n in nodeIds ::
           var total := InboundWeight(fwdEdges, n) + InboundWeight(feedbackEdges, n);
           inboundWeightSum[n] == if total > 0.0 then total else 1.0
    }

    constructor (g: GraphDef)
      requires g.Declared()
      ensures Valid() && graph == g
    {
      var ids := g.NodeIds();
      assert ids == Elements(g.nodes);
      ForwardDeclared(g.edges, ids);
      var feedback, forward := FeedbackOnly(g.edges), Forward(g.edges);
      var order := Kahn(g.nodes, forward);
      var sums := InboundSums(ids, forward, feedback);
      graph := g;
      nodeIds := ids;
      feedbackEdges := feedback;
      fwdEdges := forward;
      topoOrder := order;
      inboundWeightSum := sums;
    }

    /** Propagates the seeds. The result does not depend on the order the constructor settled on. */
    method Propagate(seeds: Values) returns (out: Values)
      requires Valid()
      ensures out == Propagated(graph, seeds) == Outcome(graph, topoOrder, seeds)
    {
      ForwardDeclared(graph.edges, nodeIds);
      var values := SeedValues(nodeIds, seeds);
      assert forall n | n in topoOrder :: n in Elements(topoOrder);
      values := ApplyForward(values);
      values := ApplyFeedbacks(values);
      out := Finish(values);
      OrderSettled(graph, topoOrder, seeds);
    }

    /** Visits the nodes in the order settled on. */
    method ApplyForward(v: Values) returns (values: Values)
      requires EndpointsIn(fwdEdges, v.Keys) && forall n | n in topoOrder :: n in v
      ensures values == ForwardPass(topoOrder, fwdEdges, v)
    {
      values := v;
      assert topoOrder[0..] == topoOrder;
      for i := 0 to |topoOrder|
        invariant values.Keys == v.Keys
        invariant ForwardPass(topoOrder[i..], fwdEdges, values) == ForwardPass(topoOrder, fwdEdges, v)
      {
        assert topoOrder[i..][1..] == topoOrder[i + 1..];
        values := Visit(topoOrder[i], values);
      }
    }

    method Visit(node: NodeId, v: Values) returns (values: Values)
      requires EndpointsIn(fwdEdges, v.Keys) && node in v
      ensures values == VisitNode(fwdEdges, node, v)
    {
      values := v;
      assert fwdEdges[0..] == fwdEdges;
      for j := 0 to |fwdEdges|
        invariant values.Keys == v.Keys
        invariant VisitNode(fwdEdges[j..], node, values) == VisitNode(fwdEdges, node, v)
      {
        var e := fwdEdges[j];
        assert fwdEdges[j..][1..] == fwdEdges[j + 1..];
        if e.to == node && e.from in values {
          values := values[node := ApplyEdge(e.kind, values[e.from], values[e.to], e.weight)];
        }
      }
    }

    method ApplyFeedbacks(v: Values) returns (values: Values)
      requires EndpointsIn(feedbackEdges, v.Keys)
      ensures values == FeedbackPass(feedbackEdges, v)
    {
      values := v;
      assert feedbackEdges[0..] == feedbackEdges;
      for i := 0 to |feedbackEdges|
        invariant values.Keys == v.Keys
        invariant FeedbackPass(feedbackEdges[i..], values) == FeedbackPass(feedbackEdges, v)
      {
        var e := feedbackEdges[i];
        assert feedbackEdges[i..][1..] == feedbackEdges[i + 1..];
        if e.from in values && e.to in values {
          values := values[e.to := ApplyFeedback(values[e.from], values[e.to], e.weight)];
        }
      }
    }
  }

  method SeedValues(ids: set<NodeId>, seeds: Values) returns (values: Values)
    ensures values == Initial(ids, seeds)
  {
    values := map[];
    var todo := ids;
    while todo != {}
      invariant todo <= ids && values == Initial(ids - todo, seeds)
      decreases todo
    {
      var n :| n in todo;
      values := values[n := if n in seeds then seeds[n] else 0.5];
      todo := todo - {n};
    }
    assert ids - {} == ids;
  }

  /** Per node, the sum of the weights of all edges into it, or one when that is not positive. */
  method InboundSums(ids: set<NodeId>, forward: seq<Edge>, feedback: seq<Edge>) returns (sums: map<NodeId, real>)
    ensures sums.Keys == ids
    ensures forall n | n in ids ::
              var total := InboundWeight(forward, n) + InboundWeight(feedback, n);
              sums[n] == if total > 0.0 then total else 1.0
  {
    sums := map[];
    var todo := ids;
    while todo != {}
      invariant todo <= ids && sums.Keys == ids - todo
      invariant forall n | n in sums ::
                  var total := InboundWeight(forward, n) + InboundWeight(feedback, n);
                  sums[n] == if total > 0.0 then total else 1.0
      decreases todo
    {
      var n :| n in todo;
      var fwd := SumInto(forward, n);
      var fb := SumInto(feedback, n);
      sums := sums[n := if fwd + fb > 0.0 then fwd + fb else 1.0];
      todo := todo - {n};
    }
  }

  method SumInto(edges: seq<Edge>, n: NodeId) returns (total: real)
    ensures total == InboundWeight(edges, n)
  {
    total := 0.0;
    for i := 0 to |edges|
      invariant total + InboundWeight(edges[i..], n) == InboundWeight(edges, n)
    {
      assert edges[i..][1..] == edges[i + 1..];
      if edges[i].to == n {
        total := total + edges[i].weight;
      }
    }
  }
}
