/** Coherence graphs: a multigraph of weighted, typed edges over declared nodes. */
module Graph {
  import opened Sequences

  type NodeId = string

  datatype EdgeType =
    | MultiplicativeFactor
    | Proportional
    | Modulates
    | AdditiveFactor
    | Reinforces
    | Suppresses
    | Feedback
    | Unknown(name: string)
  {
    /** The three kinds that replace the downstream value instead of adjusting it. */
    predicate Scales() {
      MultiplicativeFactor? || Proportional? || Modulates?
    }

    predicate Adds() {
      AdditiveFactor? || Reinforces?
    }
  }

  datatype Edge = Edge(from: NodeId, to: NodeId, kind: EdgeType, weight: real)

  datatype GraphDef = GraphDef(nodes: seq<NodeId>, edges: seq<Edge>) {
    function NodeIds(): set<NodeId> {
      set n | n in nodes
    }

    predicate Declared() {
      EndpointsIn(edges, NodeIds())
    }
  }

  predicate EndpointsIn(edges: seq<Edge>, ids: set<NodeId>) {
    forall e | e in edges :: e.from in ids && e.to in ids
  }

  predicate UnitWeights(edges: seq<Edge>) {
    forall e | e in edges :: 0.0 <= e.weight <= 1.0
  }

  function Forward(edges: seq<Edge>): seq<Edge> {
    if edges == [] then []
    else if edges[0].kind.Feedback? then Forward(edges[1..])
    else [edges[0]] + Forward(edges[1..])
  }

  function FeedbackOnly(edges: seq<Edge>): seq<Edge> {
    if edges == [] then []
    else if edges[0].kind.Feedback? then [edges[0]] + FeedbackOnly(edges[1..])
    else FeedbackOnly(edges[1..])
  }

  /** The edges that do not point into x. */
  function Sever(edges: seq<Edge>, x: NodeId): seq<Edge> {
    if edges == [] then []
    else if edges[0].to == x then Sever(edges[1..], x)
    else [edges[0]] + Sever(edges[1..], x)
  }

  lemma {:induction false} ForwardMembers(edges: seq<Edge>, e: Edge)
    ensures e in Forward(edges) <==> e in edges && !e.kind.Feedback?
    ensures e in FeedbackOnly(edges) <==> e in edges && e.kind.Feedback?
  {
    if edges != [] {
      ForwardMembers(edges[1..], e);
      assert e in edges <==> e == edges[0] || e in edges[1..];
    }
  }

  lemma {:induction false} SeverMembers(edges: seq<Edge>, x: NodeId, e: Edge)
    ensures e in Sever(edges, x) <==> e in edges && e.to != x
  {
    if edges != [] {
      SeverMembers(edges[1..], x, e);
      assert e in edges <==> e == edges[0] || e in edges[1..];
    }
  }

  /** The separation of the edges keeps every endpoint declared. */
  lemma ForwardDeclared(edges: seq<Edge>, ids: set<NodeId>)
    requires EndpointsIn(edges, ids)
    ensures EndpointsIn(Forward(edges), ids) && EndpointsIn(FeedbackOnly(edges), ids)
  {
    forall e ensures e in Forward(edges) || e in FeedbackOnly(edges) ==> e in edges {
      ForwardMembers(edges, e);
    }
  }

  lemma SeverDeclared(edges: seq<Edge>, x: NodeId, ids: set<NodeId>)
    requires EndpointsIn(edges, ids)
    ensures EndpointsIn(Sever(edges, x), ids)
  {
    forall e ensures e in Sever(edges, x) ==> e in edges {
      SeverMembers(edges, x, e);
    }
  }

  /** Severing commutes with separating the feedback edges. */
  lemma {:induction false} SeverCommutes(edges: seq<Edge>, x: NodeId)
    ensures Forward(Sever(edges, x)) == Sever(Forward(edges), x)
    ensures FeedbackOnly(Sever(edges, x)) == Sever(FeedbackOnly(edges), x)
  {
    if edges != [] {
      var e, rest := edges[0], edges[1..];
      SeverCommutes(rest, x);
      if e.to != x {
        assert ([e] + Sever(rest, x))[1..] == Sever(rest, x);
      }
      if e.kind.Feedback? {
        assert ([e] + FeedbackOnly(rest))[1..] == FeedbackOnly(rest);
      } else {
        assert ([e] + Forward(rest))[1..] == Forward(rest);
      }
    }
  }

  /** Severing a node nothing points into changes nothing. */
  lemma {:induction false} SeverIdentity(edges: seq<Edge>, x: NodeId)
    requires forall e | e in edges :: e.to != x
    ensures Sever(edges, x) == edges
  {
    if edges != [] {
      SeverIdentity(edges[1..], x);
    }
  }

  // ----- Acyclicity and topological order

  ghost predicate IsRank(rank: NodeId -> nat, edges: seq<Edge>) {
    forall e | e in edges :: rank(e.from) < rank(e.to)
  }

  ghost predicate Acyclic(edges: seq<Edge>) {
    exists rank: NodeId -> nat :: IsRank(rank, edges)
  }

  function Elements<T>(s: seq<T>): set<T> {
    set x | x in s
  }

  /** Every edge into an emitted node leaves a node emitted earlier. */
  ghost predicate Ordered(order: seq<NodeId>, edges: seq<Edge>) {
    forall k, e :: 0 <= k < |order| && e in edges && e.to == order[k] ==> e.from in order[..k]
  }

  /** order is a permutation of ids along which every edge goes strictly forward. */
  ghost predicate TopoSorted(order: seq<NodeId>, ids: set<NodeId>, edges: seq<Edge>) {
    Distinct(order) && Elements(order) == ids && Ordered(order, edges)
  }

  function IndexOf(order: seq<NodeId>, n: NodeId): (i: nat)
    ensures n in order ==> i < |order| && order[i] == n
  {
    if order == [] || order[0] == n then 0 else 1 + IndexOf(order[1..], n)
  }

  lemma TopoSortedIsAcyclic(order: seq<NodeId>, ids: set<NodeId>, edges: seq<Edge>)
    requires TopoSorted(order, ids, edges) && EndpointsIn(edges, ids)
    ensures Acyclic(edges)
  {
    var rank: NodeId -> nat := n => IndexOf(order, n);
    forall e | e in edges
      ensures rank(e.from) < rank(e.to)
    {
      assert e.to in Elements(order);
      var k := IndexOf(order, e.to);
      assert e.from in order[..k];
      var i :| 0 <= i < k && order[i] == e.from;
      assert e.from in Elements(order);
      assert order[IndexOf(order, e.from)] == order[i];
    }
    assert IsRank(rank, edges);
  }

  /** A sub-multigraph of an acyclic graph is acyclic. */
  lemma AcyclicSubgraph(sub: seq<Edge>, edges: seq<Edge>)
    requires Acyclic(edges)
    requires forall e | e in sub :: e in edges
    ensures Acyclic(sub)
  {
    var rank: NodeId -> nat :| IsRank(rank, edges);
    assert IsRank(rank, sub);
  }

  lemma DistinctCardinality<T>(s: seq<T>)
    requires Distinct(s)
    ensures |Elements(s)| == |s|
  {
    if s != [] {
      DistinctCardinality(s[1..]);
      assert Elements(s) == {s[0]} + Elements(s[1..]);
    }
  }

  lemma SubsetOfEqualSize<T>(a: set<T>, b: set<T>)
    requires a <= b && |a| == |b|
    ensures a == b
  {
    assert b == a + (b - a);
  }

  // ----- Reachability

  /** A walk along edges, in the direction they point. */
  ghost predicate IsWalk(walk: seq<NodeId>, edges: seq<Edge>) {
    && walk != []
    && forall i :: 0 <= i < |walk| - 1 ==> Linked(edges, walk[i], walk[i + 1])
  }

  predicate Linked(edges: seq<Edge>, a: NodeId, b: NodeId) {
    exists e | e in edges :: e.from == a && e.to == b
  }

  ghost predicate Reaches(edges: seq<Edge>, x: NodeId, n: NodeId) {
    exists walk :: IsWalk(walk, edges) && walk[0] == x && walk[|walk| - 1] == n
  }

  lemma ReachesItself(edges: seq<Edge>, x: NodeId)
    ensures Reaches(edges, x, x)
  {
    assert IsWalk([x], edges);
  }

  lemma ReachesAlong(edges: seq<Edge>, x: NodeId, e: Edge)
    requires e in edges && Reaches(edges, x, e.from)
    ensures Reaches(edges, x, e.to)
  {
    var walk :| IsWalk(walk, edges) && walk[0] == x && walk[|walk| - 1] == e.from;
    var longer := walk + [e.to];
    forall i | 0 <= i < |longer| - 1
      ensures Linked(edges, longer[i], longer[i + 1])
    {
      assert i < |walk| - 1 ==> Linked(edges, walk[i], walk[i + 1]);
    }
    assert IsWalk(longer, edges);
  }
}
