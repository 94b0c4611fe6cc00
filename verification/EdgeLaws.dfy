/** What each kind of edge does to the node it points into, in every acyclic graph. */
module EdgeLaws {
  import opened Rounding
  import opened Graph
  import opened StructuralModel
  import opened DoOperator

  function Without(edges: seq<Edge>, i: nat): seq<Edge>
    requires i < |edges|
  {
    edges[..i] + edges[i + 1..]
  }

  predicate LastInto(edges: seq<Edge>, i: nat) {
    i < |edges| && forall j | i < j < |edges| :: edges[j].to != edges[i].to
  }

  predicate OnlyInto(edges: seq<Edge>, i: nat) {
    i < |edges| && forall j | 0 <= j < |edges| && j != i :: edges[j].to != edges[i].to
  }

  lemma {:induction false} InboundConcat(a: seq<Edge>, b: seq<Edge>, n: NodeId, x: real, v: Values)
    requires EndpointsIn(a + b, v.Keys)
    ensures EndpointsIn(a, v.Keys) && EndpointsIn(b, v.Keys)
    ensures Inbound(a + b, n, x, v) == Inbound(b, n, Inbound(a, n, x, v), v)
  {
    assert forall e | e in a || e in b :: e in a + b;
    if a == [] {
      assert a + b == b;
    } else {
      var e := a[0];
      assert (a + b)[0] == e && (a + b)[1..] == a[1..] + b;
      InboundConcat(a[1..], b, n, if e.to == n then ApplyEdge(e.kind, v[e.from], x, e.weight) else x, v);
    }
  }

  lemma {:induction false} InboundNone(edges: seq<Edge>, n: NodeId, x: real, v: Values)
    requires EndpointsIn(edges, v.Keys) && forall e | e in edges :: e.to != n
    ensures Inbound(edges, n, x, v) == x
  {
    if edges != [] {
      InboundNone(edges[1..], n, x, v);
    }
  }

  /** Taking the last edge off leaves the fold that it was applied to. */
  lemma InboundLast(edges: seq<Edge>, i: nat, x: real, v: Values)
    requires EndpointsIn(edges, v.Keys) && LastInto(edges, i)
    ensures EndpointsIn(Without(edges, i), v.Keys)
    ensures var e := edges[i];
            Inbound(edges, e.to, x, v)
            == ApplyEdge(e.kind, v[e.from], Inbound(Without(edges, i), e.to, x, v), e.weight)
  {
    var e, before, after := edges[i], edges[..i], edges[i + 1..];
    assert edges == before + ([e] + after) && EndpointsIn(before + after, v.Keys);
    InboundConcat(before, [e] + after, e.to, x, v);
    InboundConcat(before, after, e.to, x, v);
    var y := Inbound(before, e.to, x, v);
    InboundNone(after, e.to, y, v);
    InboundConcat([e], after, e.to, y, v);
    InboundNone(after, e.to, ApplyEdge(e.kind, v[e.from], y, e.weight), v);
  }

  /** Another node's fold does not see the edge. */
  lemma InboundElsewhere(edges: seq<Edge>, i: nat, m: NodeId, x: real, v: Values)
    requires EndpointsIn(edges, v.Keys) && i < |edges| && edges[i].to != m
    ensures EndpointsIn(Without(edges, i), v.Keys) && Inbound(Without(edges, i), m, x, v) == Inbound(edges, m, x, v)
  {
    var e, before, after := edges[i], edges[..i], edges[i + 1..];
    assert edges == before + ([e] + after) && EndpointsIn(before + after, v.Keys);
    InboundConcat(before, [e] + after, m, x, v);
    InboundConcat(before, after, m, x, v);
    InboundConcat([e], after, m, Inbound(before, m, x, v), v);
  }

  lemma WithoutAcyclic(edges: seq<Edge>, i: nat, ids: set<NodeId>)
    requires i < |edges| && Acyclic(edges) && EndpointsIn(edges, ids)
    ensures Acyclic(Without(edges, i)) && EndpointsIn(Without(edges, i), ids)
  {
    var rank: NodeId -> nat :| IsRank(rank, edges);
    assert IsRank(rank, Without(edges, i));
  }

  /** An edge changes nothing upstream of its target. */
  lemma UpstreamUnchanged(edges: seq<Edge>, init: Values, i: nat, rank: NodeId -> nat, m: NodeId)
    requires IsRank(rank, edges) && Acyclic(edges) && EndpointsIn(edges, init.Keys) && i < |edges|
    requires m in init && rank(m) < rank(edges[i].to)
    ensures Acyclic(Without(edges, i)) && EndpointsIn(Without(edges, i), init.Keys)
    ensures RawForward(edges, init)[m] == RawForward(Without(edges, i), init)[m]
  {
    WithoutAcyclic(edges, i, init.Keys);
    var v, w := RawForward(edges, init), RawForward(Without(edges, i), init);
    var closed := set k | k in init && rank(k) < rank(edges[i].to);
    forall k | k in closed ensures SolvesAt(edges, init, v, k) && SolvesAt(edges, init, w, k) {
      InboundElsewhere(edges, i, k, init[k], w);
    }
    SolutionsAgree(edges, rank, init, init, v, w, closed, m);
  }

  /** The last edge into a node acts on the value the node would have without it: the three scaling kinds
      replace it, adding kinds add to it, suppression shrinks it, and an unknown kind passes it through. */
  lemma {:induction false} LastEdge(edges: seq<Edge>, init: Values, i: nat)
    requires Acyclic(edges) && EndpointsIn(edges, init.Keys) && LastInto(edges, i)
    ensures Acyclic(Without(edges, i)) && EndpointsIn(Without(edges, i), init.Keys)
    ensures var e, v := edges[i], RawForward(edges, init);
            var w := RawForward(Without(edges, i), init);
            match e.kind
            case MultiplicativeFactor => v[e.to] == v[e.from] * e.weight
            case Proportional => v[e.to] == v[e.from] * e.weight
            case Modulates => v[e.to] == v[e.from] * e.weight
            case AdditiveFactor => v[e.to] == w[e.to] + v[e.from] * e.weight
            case Reinforces => v[e.to] == w[e.to] + v[e.from] * e.weight
            case Suppresses => v[e.to] == w[e.to] * (1.0 - v[e.from] * e.weight)
            case Feedback => v[e.to] == w[e.to]
            case Unknown(_) => v[e.to] == w[e.to]
  {
    WithoutAcyclic(edges, i, init.Keys);
    LastEdgeApplied(edges, init, i);
  }

  lemma LastEdgeApplied(edges: seq<Edge>, init: Values, i: nat)
    requires Acyclic(edges) && EndpointsIn(edges, init.Keys) && LastInto(edges, i)
    requires Acyclic(Without(edges, i)) && EndpointsIn(Without(edges, i), init.Keys)
    ensures var e, v := edges[i], RawForward(edges, init);
            v[e.to] == ApplyEdge(e.kind, v[e.from], RawForward(Without(edges, i), init)[e.to], e.weight)
  {
    var rank: NodeId -> nat :| IsRank(rank, edges);
    var e, v, w := edges[i], RawForward(edges, init), RawForward(Without(edges, i), init);
    assert e in edges;
    InboundLast(edges, i, init[e.to], v);
    forall f | f in Without(edges, i) && f.to == e.to ensures v[f.from] == w[f.from] {
      assert f in edges;
      UpstreamUnchanged(edges, init, i, rank, f.from);
    }
    InboundAgree(Without(edges, i), e.to, init[e.to], v, w);
    assert SolvesAt(edges, init, v, e.to) && SolvesAt(Without(edges, i), init, w, e.to);
  }

  /** A node without inbound edges keeps its initial value. */
  lemma {:induction false} NoEdgeKeepsSeed(edges: seq<Edge>, init: Values, n: NodeId)
    requires Acyclic(edges) && EndpointsIn(edges, init.Keys) && n in init && forall e | e in edges :: e.to != n
    ensures RawForward(edges, init)[n] == init[n]
  {
    var v := RawForward(edges, init);
    InboundNone(edges, n, init[n], v);
    assert SolvesAt(edges, init, v, n);
  }

  /** The only edge into a node acts on its seed. */
  lemma {:induction false} OnlyEdge(edges: seq<Edge>, init: Values, i: nat)
    requires Acyclic(edges) && EndpointsIn(edges, init.Keys) && OnlyInto(edges, i)
    ensures var e, v := edges[i], RawForward(edges, init);
            && (e.kind.AdditiveFactor? || e.kind.Reinforces? ==> v[e.to] == init[e.to] + v[e.from] * e.weight)
            && (e.kind.Suppresses? ==> v[e.to] == init[e.to] * (1.0 - v[e.from] * e.weight))
            && (e.kind.Unknown? ==> v[e.to] == init[e.to])
  {
    assert edges[i] in edges;
    LastEdge(edges, init, i);
    NoEdgeKeepsSeed(Without(edges, i), init, edges[i].to);
  }

  /** A node reports its forward value plus its feedback corrections, rounded and clamped. */
  lemma {:induction false} Reports(g: GraphDef, seeds: Values, n: NodeId)
    requires g.Declared() && Acyclic(Forward(g.edges)) && n in g.nodes
    ensures EndpointsIn(Forward(g.edges), g.NodeIds()) && EndpointsIn(FeedbackOnly(g.edges), g.NodeIds())
    ensures n in Propagated(g, seeds)
    ensures var raw := RawForward(Forward(g.edges), Initial(g.NodeIds(), seeds));
            Propagated(g, seeds)[n] == Clamp(Round6(raw[n] + Corrections(FeedbackOnly(g.edges), raw, n)))
  {
    ForwardDeclared(g.edges, g.NodeIds());
    var raw := RawForward(Forward(g.edges), Initial(g.NodeIds(), seeds));
    FeedbackShift(FeedbackOnly(g.edges), raw, n);
  }

  /** In every declared graph, cyclic or not, a node nothing points into reports its own seed, rounded and
      clamped, or one half when it has none. */
  lemma {:induction false} RootReports(g: GraphDef, seeds: Values, n: NodeId)
    requires g.Declared() && n in g.nodes && forall e | e in g.edges :: e.to != n
    ensures n in Propagated(g, seeds)
    ensures n in seeds ==> Propagated(g, seeds)[n] == Clamp(Round6(seeds[n]))
    ensures n !in seeds ==> Propagated(g, seeds)[n] == 0.5
  {
    var x := if n in seeds then seeds[n] else 0.5;
    RootHeld(g, seeds, n, x);
    Half();
  }

  lemma RootHeld(g: GraphDef, seeds: Values, n: NodeId, x: real)
    requires g.Declared() && n in g.nodes && forall e | e in g.edges :: e.to != n
    requires x == if n in seeds then seeds[n] else 0.5
    ensures n in Propagated(g, seeds) && Propagated(g, seeds)[n] == Clamp(Round6(x))
  {
    SeverIdentity(g.edges, n);
    assert Severed(g, n) == g;
    Effectiveness(g, n, seeds, x);
    assert Initial(g.NodeIds(), seeds[n := x]) == Initial(g.NodeIds(), seeds);
    SameInitial(g, seeds[n := x], seeds);
  }

  lemma SameInitial(g: GraphDef, s: Values, t: Values)
    requires g.Declared() && Initial(g.NodeIds(), s) == Initial(g.NodeIds(), t)
    ensures Propagated(g, s) == Propagated(g, t)
  {
  }

  lemma Half()
    ensures Round6(0.5) == 0.5
  {
    assert 0.5 == 500000 as real / 1000000.0;
    QuantizeIdentity(0.5, 1000000.0);
  }
}
