/** What propagation means: the structural equations of an acyclic coherence graph,
    the in-place passes that compute their solution, and why the two agree. */
module StructuralModel {
  import opened Rounding
  import opened Graph
  import opened Sequences

  type Values = map<NodeId, real>

  function ApplyEdge(kind: EdgeType, upstream: real, downstream: real, weight: real): real {
    if kind.Scales() then upstream * weight
    else if kind.Adds() then downstream + upstream * weight
    else if kind.Suppresses? then downstream * (1.0 - upstream * weight)
    else downstream
  }

  function ApplyFeedback(upstream: real, downstream: real, weight: real): real {
    downstream + (upstream - 0.5) * weight * 0.05
  }

  /** Seeds, with the neutral value for nodes that have none. */
  function Initial(ids: set<NodeId>, seeds: Values): Values {
    map n | n in ids :: if n in seeds then seeds[n] else 0.5
  }

  // ----- The passes as the program runs them, on a map that is overwritten

  /** Applies, in declaration order, every edge into n. */
  function VisitNode(edges: seq<Edge>, n: NodeId, v: Values): (r: Values)
    requires EndpointsIn(edges, v.Keys)
    ensures r.Keys == v.Keys
  {
    if edges == [] then v
    else
      var e := edges[0];
      VisitNode(edges[1..], n, if e.to == n then v[n := ApplyEdge(e.kind, v[e.from], v[n], e.weight)] else v)
  }

  function ForwardPass(order: seq<NodeId>, edges: seq<Edge>, v: Values): (r: Values)
    requires EndpointsIn(edges, v.Keys)
    ensures r.Keys == v.Keys
  {
    if order == [] then v else ForwardPass(order[1..], edges, VisitNode(edges, order[0], v))
  }

  function FeedbackPass(edges: seq<Edge>, v: Values): (r: Values)
    requires EndpointsIn(edges, v.Keys)
    ensures r.Keys == v.Keys
  {
    if edges == [] then v
    else
      var e := edges[0];
      FeedbackPass(edges[1..], v[e.to := ApplyFeedback(v[e.from], v[e.to], e.weight)])
  }

  function Finish(v: Values): Values {
    map n | n in v :: Clamp(Round6(v[n]))
  }

  /** The whole of propagation for one visiting order. */
  function Outcome(g: GraphDef, order: seq<NodeId>, seeds: Values): Values
    requires g.Declared()
  {
    ForwardDeclared(g.edges, g.NodeIds());
    Finish(FeedbackPass(FeedbackOnly(g.edges), ForwardPass(order, Forward(g.edges), Initial(g.NodeIds(), seeds))))
  }

  // ----- The equations

  /** Folds the edges into n, in declaration order, over x; sources are read from v. */
  function Inbound(edges: seq<Edge>, n: NodeId, x: real, v: Values): real
    requires EndpointsIn(edges, v.Keys)
  {
    if edges == [] then x
    else
      var e := edges[0];
      Inbound(edges[1..], n, if e.to == n then ApplyEdge(e.kind, v[e.from], x, e.weight) else x, v)
  }

  /** v gives n the value its own inbound edges demand. */
  predicate SolvesAt(edges: seq<Edge>, init: Values, v: Values, n: NodeId)
    requires n in init && init.Keys == v.Keys && EndpointsIn(edges, v.Keys)
  {
    v[n] == Inbound(edges, n, init[n], v)
  }

  ghost predicate Solves(edges: seq<Edge>, init: Values, v: Values) {
    && init.Keys == v.Keys
    && EndpointsIn(edges, v.Keys)
    && forall n | n in v :: SolvesAt(edges, init, v, n)
  }

  /** Only the sources of the edges into n matter. */
  lemma {:induction false} InboundAgree(edges: seq<Edge>, n: NodeId, x: real, v: Values, w: Values)
    requires EndpointsIn(edges, v.Keys) && EndpointsIn(edges, w.Keys)
    requires forall e | e in edges && e.to == n :: v[e.from] == w[e.from]
    ensures Inbound(edges, n, x, v) == Inbound(edges, n, x, w)
  {
    if edges != [] {
      var e := edges[0];
      InboundAgree(edges[1..], n, if e.to == n then ApplyEdge(e.kind, v[e.from], x, e.weight) else x, v, w);
    }
  }

  /** Edges that point elsewhere do not matter. */
  lemma {:induction false} InboundSever(edges: seq<Edge>, x: NodeId, n: NodeId, a: real, v: Values)
    requires EndpointsIn(edges, v.Keys) && EndpointsIn(Sever(edges, x), v.Keys)
    ensures n != x ==> Inbound(Sever(edges, x), n, a, v) == Inbound(edges, n, a, v)
    ensures n == x ==> Inbound(Sever(edges, x), n, a, v) == a
  {
    if edges != [] {
      var e := edges[0];
      SeverDeclared(edges[1..], x, v.Keys);
      if e.to == x {
        InboundSever(edges[1..], x, n, a, v);
      } else {
        assert Sever(edges, x)[1..] == Sever(edges[1..], x);
        InboundSever(edges[1..], x, n, if e.to == n then ApplyEdge(e.kind, v[e.from], a, e.weight) else a, v);
      }
    }
  }

  /** Two assignments that satisfy the equations on an ancestor-closed set agree there. */
  lemma {:induction false} SolutionsAgree(edges: seq<Edge>, rank: NodeId -> nat, init: Values, init': Values,
                                          v: Values, w: Values, closed: set<NodeId>, n: NodeId)
    requires IsRank(rank, edges)
    requires init.Keys == v.Keys == w.Keys == init'.Keys && EndpointsIn(edges, v.Keys)
    requires closed <= v.Keys
    requires forall e | e in edges && e.to in closed :: e.from in closed
    requires forall m | m in closed ::
               init[m] == init'[m] && SolvesAt(edges, init, v, m) && SolvesAt(edges, init', w, m)
    requires n in closed
    ensures v[n] == w[n]
    decreases rank(n)
  {
    forall e | e in edges && e.to == n
      ensures v[e.from] == w[e.from]
    {
      SolutionsAgree(edges, rank, init, init', v, w, closed, e.from);
    }
    InboundAgree(edges, n, init[n], v, w);
  }

  lemma {:induction false} SolutionUnique(edges: seq<Edge>, init: Values, v: Values, w: Values)
    requires Acyclic(edges) && Solves(edges, init, v) && Solves(edges, init, w)
    ensures v == w
  {
    var rank: NodeId -> nat :| IsRank(rank, edges);
    forall n | n in v
      ensures v[n] == w[n]
    {
      SolutionsAgree(edges, rank, init, init, v, w, v.Keys, n);
    }
  }

  // ----- The recursive semantics: existence of the solution

  /** The value of n after its first k candidate edges, sources evaluated recursively. */
  ghost function Evaluate(edges: seq<Edge>, rank: NodeId -> nat, init: Values, n: NodeId, k: nat): real
    requires IsRank(rank, edges) && EndpointsIn(edges, init.Keys) && n in init && k <= |edges|
    decreases rank(n), k
  {
    if k == 0 then init[n]
    else
      var e := edges[k - 1];
      var before := Evaluate(edges, rank, init, n, k - 1);
      if e.to == n then ApplyEdge(e.kind, Evaluate(edges, rank, init, e.from, |edges|), before, e.weight) else before
  }

  ghost function Denotation(edges: seq<Edge>, rank: NodeId -> nat, init: Values): Values
    requires IsRank(rank, edges) && EndpointsIn(edges, init.Keys)
  {
    map n | n in init :: Evaluate(edges, rank, init, n, |edges|)
  }

  lemma {:induction false} EvaluateIsInbound(edges: seq<Edge>, rank: NodeId -> nat, init: Values, n: NodeId, k: nat)
    requires IsRank(rank, edges) && EndpointsIn(edges, init.Keys) && n in init && k <= |edges|
    ensures Inbound(edges[k..], n, Evaluate(edges, rank, init, n, k), Denotation(edges, rank, init))
         == Evaluate(edges, rank, init, n, |edges|)
    decreases |edges| - k
  {
    if k < |edges| {
      assert edges[k..][1..] == edges[k + 1..];
      EvaluateIsInbound(edges, rank, init, n, k + 1);
    }
  }

  lemma {:induction false} DenotationSolves(edges: seq<Edge>, rank: NodeId -> nat, init: Values)
    requires IsRank(rank, edges) && EndpointsIn(edges, init.Keys)
    ensures Solves(edges, init, Denotation(edges, rank, init))
  {
    forall n | n in init
      ensures SolvesAt(edges, init, Denotation(edges, rank, init), n)
    {
      EvaluateIsInbound(edges, rank, init, n, 0);
      assert edges[0..] == edges;
    }
  }

  /** The solution of the equations: the raw forward values. */
  ghost function RawForward(edges: seq<Edge>, init: Values): (v: Values)
    requires Acyclic(edges) && EndpointsIn(edges, init.Keys)
    ensures Solves(edges, init, v)
  {
    var rank: NodeId -> nat :| IsRank(rank, edges);
    DenotationSolves(edges, rank, init);
    Denotation(edges, rank, init)
  }

  // ----- The in-place pass refines the equations

  /** One visit of a node without a self-loop overwrites just that node, by the inbound fold. */
  lemma {:induction false} VisitIsInbound(edges: seq<Edge>, n: NodeId, v: Values)
    requires EndpointsIn(edges, v.Keys) && n in v
    requires forall e | e in edges && e.to == n :: e.from != n
    ensures VisitNode(edges, n, v) == v[n := Inbound(edges, n, v[n], v)]
  {
    if edges == [] {
      assert v[n := v[n]] == v;
    } else {
      var e := edges[0];
      if e.to == n {
        var w := v[n := ApplyEdge(e.kind, v[e.from], v[n], e.weight)];
        VisitIsInbound(edges[1..], n, w);
        InboundAgree(edges[1..], n, w[n], v, w);
        assert w[n := Inbound(edges[1..], n, w[n], w)] == v[n := Inbound(edges, n, v[n], v)];
      } else {
        VisitIsInbound(edges[1..], n, v);
      }
    }
  }

  /** After the first k nodes: those are final, the others untouched. */
  ghost predicate Halfway(order: seq<NodeId>, k: nat, edges: seq<Edge>, init: Values, v: Values)
    requires k <= |order| && init.Keys == v.Keys && EndpointsIn(edges, v.Keys)
  {
    && (forall n | n in v && n in order[..k] :: SolvesAt(edges, init, v, n))
    && (forall n | n in v && n !in order[..k] :: v[n] == init[n])
  }

  /** The sources of an already visited node were visited strictly before the k-th one. */
  lemma SourcesVisited(order: seq<NodeId>, k: nat, ids: set<NodeId>, edges: seq<Edge>, e: Edge)
    requires k < |order| && TopoSorted(order, ids, edges)
    requires e in edges && e.to in order[..k + 1]
    ensures e.from in order[..k] && e.from != order[k]
  {
    var j :| 0 <= j <= k && order[j] == e.to;
    assert e.from in order[..j];
    var i :| 0 <= i < j && order[i] == e.from;
  }

  lemma NotYetVisited(order: seq<NodeId>, k: nat)
    requires k < |order| && Distinct(order)
    ensures order[k] !in order[..k]
  {
  }

  lemma VisitAdvances(order: seq<NodeId>, k: nat, edges: seq<Edge>, init: Values, v: Values)
    requires k < |order| && init.Keys == v.Keys && EndpointsIn(edges, v.Keys)
    requires TopoSorted(order, v.Keys, edges) && Halfway(order, k, edges, init, v)
    ensures Halfway(order, k + 1, edges, init, VisitNode(edges, order[k], v))
  {
    var n := order[k];
    assert n in v by { assert n in Elements(order); }
    NotYetVisited(order, k);
    assert order[..k + 1] == order[..k] + [n];
    assert n in order[..k + 1];
    forall e | e in edges && e.to == n ensures e.from != n {
      SourcesVisited(order, k, v.Keys, edges, e);
    }
    VisitIsInbound(edges, n, v);
    var w := VisitNode(edges, n, v);
    forall m | m in w && m in order[..k + 1]
      ensures SolvesAt(edges, init, w, m)
    {
      forall e | e in edges && e.to == m ensures v[e.from] == w[e.from] {
        SourcesVisited(order, k, v.Keys, edges, e);
      }
      InboundAgree(edges, m, init[m], v, w);
      assert m != n ==> SolvesAt(edges, init, v, m);
    }
  }

  lemma {:induction false} ForwardPassSolvesFrom(order: seq<NodeId>, k: nat, edges: seq<Edge>, init: Values, v: Values)
    requires k <= |order| && init.Keys == v.Keys && EndpointsIn(edges, v.Keys)
    requires TopoSorted(order, v.Keys, edges) && Halfway(order, k, edges, init, v)
    ensures Solves(edges, init, ForwardPass(order[k..], edges, v))
    decreases |order| - k
  {
    if k < |order| {
      VisitAdvances(order, k, edges, init, v);
      assert order[k..][1..] == order[k + 1..];
      ForwardPassSolvesFrom(order, k + 1, edges, init, VisitNode(edges, order[k], v));
    } else {
      assert order[..k] == order;
      forall n | n in v
        ensures SolvesAt(edges, init, v, n)
      {
        assert n in Elements(order);
      }
    }
  }

  /** The in-place pass along any topological order computes the solution of the equations. */
  lemma {:induction false} ForwardPassIsRawForward(order: seq<NodeId>, edges: seq<Edge>, init: Values)
    requires EndpointsIn(edges, init.Keys) && TopoSorted(order, init.Keys, edges)
    ensures Acyclic(edges) && ForwardPass(order, edges, init) == RawForward(edges, init)
  {
    TopoSortedIsAcyclic(order, init.Keys, edges);
    assert order[0..] == order;
    ForwardPassSolvesFrom(order, 0, edges, init, init);
    SolutionUnique(edges, init, ForwardPass(order, edges, init), RawForward(edges, init));
  }

  /** Propagation, without any visiting order: the unique solution of the forward equations when
      there is one, the declaration-order pass when the forward edges have a cycle. */
  ghost function Propagated(g: GraphDef, seeds: Values): Values
    requires g.Declared()
  {
    ForwardDeclared(g.edges, g.NodeIds());
    var forward, init := Forward(g.edges), Initial(g.NodeIds(), seeds);
    if Acyclic(forward) then Finish(FeedbackPass(FeedbackOnly(g.edges), RawForward(forward, init)))
    else Outcome(g, g.nodes, seeds)
  }

  /** Order independence: every topological order gives the same result. */
  lemma {:induction false} OrderIndependence(g: GraphDef, order: seq<NodeId>, seeds: Values)
    requires g.Declared() && TopoSorted(order, g.NodeIds(), Forward(g.edges))
    ensures Outcome(g, order, seeds) == Propagated(g, seeds)
  {
    ForwardDeclared(g.edges, g.NodeIds());
    ForwardPassIsRawForward(order, Forward(g.edges), Initial(g.NodeIds(), seeds));
  }
}
