/** What an intervention leaves alone: the nodes it cannot reach keep their values, and exactly when. */
module Locality {
  import opened Rounding
  import opened Graph
  import opened Sequences
  import opened StructuralModel
  import opened DoOperator
  import Ranges

  /** Feedback into nodes outside an influence-closed set reads only nodes outside it. */
  lemma {:induction false} FeedbackAgrees(edges: seq<Edge>, x: NodeId, v: Values, w: Values, outside: set<NodeId>)
    requires EndpointsIn(edges, v.Keys) && v.Keys == w.Keys && EndpointsIn(Sever(edges, x), v.Keys)
    requires outside <= v.Keys && x !in outside
    requires forall e | e in edges && e.to in outside :: e.from in outside
    requires forall n | n in outside :: v[n] == w[n]
    ensures forall n | n in outside :: FeedbackPass(edges, v)[n] == FeedbackPass(Sever(edges, x), w)[n]
  {
    if edges != [] {
      var e := edges[0];
      var v' := v[e.to := ApplyFeedback(v[e.from], v[e.to], e.weight)];
      SeverDeclared(edges[1..], x, v.Keys);
      if e.to == x {
        FeedbackAgrees(edges[1..], x, v', w, outside);
      } else {
        var w' := w[e.to := ApplyFeedback(w[e.from], w[e.to], e.weight)];
        assert Sever(edges, x)[1..] == Sever(edges[1..], x);
        FeedbackAgrees(edges[1..], x, v', w', outside);
      }
    }
  }

  lemma SeveredAgrees(edges: seq<Edge>, init: Values, x: NodeId, fixed: real, outside: set<NodeId>, n: NodeId)
    requires Acyclic(edges) && EndpointsIn(edges, init.Keys) && x in init
    requires EndpointsIn(Sever(edges, x), init.Keys) && Acyclic(Sever(edges, x))
    requires outside <= init.Keys && x !in outside && n in outside
    requires forall e | e in edges && e.to in outside :: e.from in outside
    ensures RawForward(edges, init)[n] == RawForward(Sever(edges, x), init[x := fixed])[n]
  {
    var v, w := RawForward(edges, init), RawForward(Sever(edges, x), init[x := fixed]);
    var rank: NodeId -> nat :| IsRank(rank, edges);
    forall m | m in outside
      ensures SolvesAt(edges, init, v, m) && SolvesAt(edges, init[x := fixed], w, m)
    {
      assert SolvesAt(Sever(edges, x), init[x := fixed], w, m);
      InboundSever(edges, x, m, init[m], w);
    }
    SolutionsAgree(edges, rank, init, init[x := fixed], v, w, outside, n);
  }

  /** The declared nodes that x cannot influence. */
  ghost function Uninfluenced(g: GraphDef, x: NodeId): set<NodeId> {
    set m | m in g.NodeIds() && !Reaches(g.edges, x, m)
  }

  lemma UninfluencedIsClosed(g: GraphDef, x: NodeId)
    requires g.Declared()
    ensures x !in Uninfluenced(g, x)
    ensures forall e | e in Forward(g.edges) && e.to in Uninfluenced(g, x) :: e.from in Uninfluenced(g, x)
    ensures forall e | e in FeedbackOnly(g.edges) && e.to in Uninfluenced(g, x) :: e.from in Uninfluenced(g, x)
  {
    ReachesItself(g.edges, x);
    forall e | (e in Forward(g.edges) || e in FeedbackOnly(g.edges)) && e.to in Uninfluenced(g, x)
      ensures e.from in Uninfluenced(g, x)
    {
      ForwardMembers(g.edges, e);
      if Reaches(g.edges, x, e.from) {
        ReachesAlong(g.edges, x, e);
      }
    }
  }

  lemma RawLocality(edges: seq<Edge>, ids: set<NodeId>, x: NodeId, seeds: Values, fixed: real, outside: set<NodeId>)
    requires Acyclic(edges) && EndpointsIn(edges, ids)
    requires EndpointsIn(Sever(edges, x), ids) && Acyclic(Sever(edges, x))
    requires outside <= ids && x !in outside
    requires forall e | e in edges && e.to in outside :: e.from in outside
    ensures forall m | m in outside ::
              RawForward(edges, Initial(ids, seeds))[m]
              == RawForward(Sever(edges, x), Initial(ids, seeds[x := fixed]))[m]
  {
    var init, init' := Initial(ids, seeds), Initial(ids, seeds[x := fixed]);
    if x in ids {
      assert init' == init[x := fixed];
      forall m | m in outside
        ensures RawForward(edges, init)[m] == RawForward(Sever(edges, x), init')[m]
      {
        SeveredAgrees(edges, init, x, fixed, outside, m);
      }
    } else {
      assert init' == init;
      SeverIdentity(edges, x);
    }
  }

  lemma AcyclicLocality(g: GraphDef, x: NodeId, seeds: Values, fixed: real, n: NodeId)
    requires g.Declared() && Acyclic(Forward(g.edges)) && n in g.nodes
    requires !Reaches(g.edges, x, n)
    ensures Severed(g, x).Declared()
    ensures n in Propagated(g, seeds) && n in Propagated(Severed(g, x), seeds[x := fixed])
    ensures Propagated(Severed(g, x), seeds[x := fixed])[n] == Propagated(g, seeds)[n]
  {
    var ids, outside := g.NodeIds(), Uninfluenced(g, x);
    ForwardDeclared(g.edges, ids);
    SeveredPropagation(g, x, seeds[x := fixed]);
    UninfluencedIsClosed(g, x);
    RawLocality(Forward(g.edges), ids, x, seeds, fixed, outside);
    FeedbackAgrees(FeedbackOnly(g.edges), x, RawForward(Forward(g.edges), Initial(ids, seeds)),
                   RawForward(Sever(Forward(g.edges), x), Initial(ids, seeds[x := fixed])), outside);
  }

  /** A visit, too, reads for a node outside an influence-closed set only nodes outside it. */
  lemma {:induction false} VisitAgrees(edges: seq<Edge>, x: NodeId, m: NodeId, v: Values, w: Values,
      outside: set<NodeId>)
    requires EndpointsIn(edges, v.Keys) && v.Keys == w.Keys && EndpointsIn(Sever(edges, x), v.Keys)
    requires outside <= v.Keys && x !in outside
    requires forall e | e in edges && e.to in outside :: e.from in outside
    requires forall n | n in outside :: v[n] == w[n]
    ensures forall n | n in outside :: VisitNode(edges, m, v)[n] == VisitNode(Sever(edges, x), m, w)[n]
  {
    if edges != [] {
      var e := edges[0];
      var v' := if e.to == m then v[m := ApplyEdge(e.kind, v[e.from], v[m], e.weight)] else v;
      SeverDeclared(edges[1..], x, v.Keys);
      if e.to == x {
        VisitAgrees(edges[1..], x, m, v', w, outside);
      } else {
        var w' := if e.to == m then w[m := ApplyEdge(e.kind, w[e.from], w[m], e.weight)] else w;
        assert Sever(edges, x)[1..] == Sever(edges[1..], x);
        VisitAgrees(edges[1..], x, m, v', w', outside);
      }
    }
  }

  lemma {:induction false} ForwardPassAgrees(order: seq<NodeId>, edges: seq<Edge>, x: NodeId, v: Values, w: Values,
                                             outside: set<NodeId>)
    requires EndpointsIn(edges, v.Keys) && v.Keys == w.Keys && EndpointsIn(Sever(edges, x), v.Keys)
    requires outside <= v.Keys && x !in outside
    requires forall e | e in edges && e.to in outside :: e.from in outside
    requires forall n | n in outside :: v[n] == w[n]
    ensures forall n | n in outside :: ForwardPass(order, edges, v)[n] == ForwardPass(order, Sever(edges, x), w)[n]
  {
    if order != [] {
      VisitAgrees(edges, x, order[0], v, w, outside);
      ForwardPassAgrees(order[1..], edges, x, VisitNode(edges, order[0], v), VisitNode(Sever(edges, x), order[0], w),
          outside);
    }
  }

  /** While severing leaves a cycle, both runs visit the nodes in declaration order. */
  lemma CyclicLocality(g: GraphDef, x: NodeId, seeds: Values, fixed: real, n: NodeId)
    requires g.Declared() && !Acyclic(Forward(g.edges)) && !Acyclic(Forward(Severed(g, x).edges)) && n in g.nodes
    requires !Reaches(g.edges, x, n)
    ensures Severed(g, x).Declared()
    ensures n in Propagated(g, seeds) && n in Propagated(Severed(g, x), seeds[x := fixed])
    ensures Propagated(Severed(g, x), seeds[x := fixed])[n] == Propagated(g, seeds)[n]
  {
    var ids, outside := g.NodeIds(), Uninfluenced(g, x);
    var forward, feedback := Forward(g.edges), FeedbackOnly(g.edges);
    ForwardDeclared(g.edges, ids);
    SeverDeclared(g.edges, x, ids);
    SeverDeclared(forward, x, ids);
    SeverDeclared(feedback, x, ids);
    SeverCommutes(g.edges, x);
    UninfluencedIsClosed(g, x);
    var init, init' := Initial(ids, seeds), Initial(ids, seeds[x := fixed]);
    ForwardPassAgrees(g.nodes, forward, x, init, init', outside);
    FeedbackAgrees(feedback, x, ForwardPass(g.nodes, forward, init), ForwardPass(g.nodes, Sever(forward, x), init'),
        outside);
  }

  lemma {:induction false} VisitElsewhere(edges: seq<Edge>, m: NodeId, v: Values, n: NodeId)
    requires EndpointsIn(edges, v.Keys) && n in v && m != n
    ensures VisitNode(edges, m, v)[n] == v[n]
  {
    if edges != [] {
      var e := edges[0];
      VisitElsewhere(edges[1..], m, if e.to == m then v[m := ApplyEdge(e.kind, v[e.from], v[m], e.weight)] else v, n);
    }
  }

  lemma {:induction false} PassElsewhere(order: seq<NodeId>, edges: seq<Edge>, v: Values, n: NodeId)
    requires EndpointsIn(edges, v.Keys) && n in v && n !in order
    ensures ForwardPass(order, edges, v)[n] == v[n]
  {
    if order != [] {
      VisitElsewhere(edges, order[0], v, n);
      PassElsewhere(order[1..], edges, VisitNode(edges, order[0], v), n);
    }
  }

  // ----- Severing that removes the last cycle: declaration order gives way to a topological one

  /** An edge into a node the intervention cannot reach whose source is declared later and has an inbound
      edge itself: declaration order reads the source too early. */
  ghost predicate LatePair(g: GraphDef, x: NodeId, e: Edge, f: Edge) {
    && e in Forward(g.edges) && f in Forward(g.edges)
    && e.to == f.from && !Reaches(g.edges, x, f.to)
    && IndexOf(g.nodes, f.to) < IndexOf(g.nodes, f.from)
  }

  ghost predicate DeclaredLate(g: GraphDef, x: NodeId) {
    exists e, f :: LatePair(g, x, e, f)
  }

  predicate NoInbound(edges: seq<Edge>, n: NodeId) {
    forall e | e in edges :: e.to != n
  }

  /** Sources of edges into the closed set are visited before their targets or never change. */
  ghost predicate InTime(order: seq<NodeId>, edges: seq<Edge>, closed: set<NodeId>) {
    forall f | f in edges && f.to in closed ::
      f.from in closed && f.from != f.to
      && (NoInbound(edges, f.from) || IndexOf(order, f.from) < IndexOf(order, f.to))
  }

  /** After the first k visits the closed set's visited nodes satisfy their equations, the others hold seeds. */
  ghost predicate SettledOn(order: seq<NodeId>, k: nat, edges: seq<Edge>, init: Values, v: Values, closed: set<NodeId>)
    requires k <= |order| && init.Keys == v.Keys && EndpointsIn(edges, v.Keys) && closed <= v.Keys
  {
    && (forall n | n in closed && n in order[..k] :: SolvesAt(edges, init, v, n))
    && (forall n | n in closed && n !in order[..k] :: v[n] == init[n])
  }

  /** Changing a node no edge into m leaves keeps the equation of m. */
  lemma EquationKept(edges: seq<Edge>, init: Values, v: Values, w: Values, n: NodeId, m: NodeId)
    requires init.Keys == v.Keys == w.Keys && EndpointsIn(edges, v.Keys) && m in v && m != n
    requires forall p | p in v && p != n :: w[p] == v[p]
    requires forall e | e in edges && e.to == m :: e.from != n
    requires SolvesAt(edges, init, v, m)
    ensures SolvesAt(edges, init, w, m)
  {
    InboundAgree(edges, m, init[m], v, w);
  }

  lemma IndexedBefore(order: seq<NodeId>, k: nat, n: NodeId)
    requires k <= |order| && Distinct(order) && n in order[..k]
    ensures IndexOf(order, n) < k
  {
    var i :| 0 <= i < k && order[i] == n;
    assert order[IndexOf(order, n)] == order[i];
  }

  lemma OthersKept(edges: seq<Edge>, n: NodeId, v: Values)
    requires EndpointsIn(edges, v.Keys)
    ensures forall p | p in v && p != n :: VisitNode(edges, n, v)[p] == v[p]
  {
    forall p | p in v && p != n ensures VisitNode(edges, n, v)[p] == v[p] {
      VisitElsewhere(edges, n, v, p);
    }
  }

  /** A visit within the set settles its node and disturbs none that was settled. */
  lemma SettleInside(order: seq<NodeId>, k: nat, edges: seq<Edge>, init: Values, v: Values, closed: set<NodeId>)
    requires k < |order| && Distinct(order) && init.Keys == v.Keys && EndpointsIn(edges, v.Keys) && closed <= v.Keys
    requires InTime(order, edges, closed) && SettledOn(order, k, edges, init, v, closed) && order[k] in closed
    ensures SettledOn(order, k + 1, edges, init, VisitNode(edges, order[k], v), closed)
  {
    var n := order[k];
    NotYetVisited(order, k);
    assert order[..k + 1] == order[..k] + [n];
    VisitIsInbound(edges, n, v);
    var w := VisitNode(edges, n, v);
    InboundAgree(edges, n, init[n], v, w);
    if NoInbound(edges, n) {
      InboundSkips(edges, n, init[n], v);
      assert w == v;
    }
    forall m | m in closed && m in order[..k]
      ensures SolvesAt(edges, init, w, m)
    {
      IndexedBefore(order, k, m);
      assert order[IndexOf(order, n)] == order[k];
      if !NoInbound(edges, n) {
        EquationKept(edges, init, v, w, n, m);
      }
    }
  }

  lemma SettleOutside(order: seq<NodeId>, k: nat, edges: seq<Edge>, init: Values, v: Values, closed: set<NodeId>)
    requires k < |order| && init.Keys == v.Keys && EndpointsIn(edges, v.Keys) && closed <= v.Keys
    requires InTime(order, edges, closed) && SettledOn(order, k, edges, init, v, closed) && order[k] !in closed
    ensures SettledOn(order, k + 1, edges, init, VisitNode(edges, order[k], v), closed)
  {
    var n := order[k];
    assert order[..k + 1] == order[..k] + [n];
    OthersKept(edges, n, v);
    forall m | m in closed && m in order[..k]
      ensures SolvesAt(edges, init, VisitNode(edges, n, v), m)
    {
      EquationKept(edges, init, v, VisitNode(edges, n, v), n, m);
    }
  }

  lemma {:induction false} PassSettles(order: seq<NodeId>, k: nat, edges: seq<Edge>, init: Values, v: Values,
                                       closed: set<NodeId>)
    requires k <= |order| && Distinct(order) && init.Keys == v.Keys && EndpointsIn(edges, v.Keys) && closed <= v.Keys
    requires InTime(order, edges, closed) && SettledOn(order, k, edges, init, v, closed)
    ensures SettledOn(order, |order|, edges, init, ForwardPass(order[k..], edges, v), closed)
    decreases |order| - k
  {
    if k < |order| {
      if order[k] in closed {
        SettleInside(order, k, edges, init, v, closed);
      } else {
        SettleOutside(order, k, edges, init, v, closed);
      }
      assert order[k..][1..] == order[k + 1..];
      PassSettles(order, k + 1, edges, init, VisitNode(edges, order[k], v), closed);
    }
  }

  lemma UninfluencedInTime(g: GraphDef, x: NodeId)
    requires g.Declared() && Distinct(g.nodes) && Acyclic(Sever(Forward(g.edges), x)) && !DeclaredLate(g, x)
    ensures InTime(g.nodes, Forward(g.edges), Uninfluenced(g, x))
  {
    var forward, closed := Forward(g.edges), Uninfluenced(g, x);
    UninfluencedIsClosed(g, x);
    ForwardDeclared(g.edges, g.NodeIds());
    forall f | f in forward && f.to in closed
      ensures f.from in closed && f.from != f.to
      ensures NoInbound(forward, f.from) || IndexOf(g.nodes, f.from) < IndexOf(g.nodes, f.to)
    {
      NotOwnSource(forward, x, f);
      SourceInTime(g, x, f);
    }
  }

  lemma SourceInTime(g: GraphDef, x: NodeId, f: Edge)
    requires f.from in g.nodes && f.to in g.nodes && f.from != f.to
    requires f in Forward(g.edges) && !Reaches(g.edges, x, f.to) && !DeclaredLate(g, x)
    ensures NoInbound(Forward(g.edges), f.from) || IndexOf(g.nodes, f.from) < IndexOf(g.nodes, f.to)
  {
    IndicesDiffer(g.nodes, f.from, f.to);
    if e :| e in Forward(g.edges) && e.to == f.from {
      assert !LatePair(g, x, e, f);
    }
  }

  lemma IndicesDiffer(order: seq<NodeId>, n: NodeId, m: NodeId)
    requires n in order && m in order && n != m
    ensures IndexOf(order, n) != IndexOf(order, m)
  {
    assert order[IndexOf(order, n)] == n && order[IndexOf(order, m)] == m;
  }

  lemma NotOwnSource(forward: seq<Edge>, x: NodeId, f: Edge)
    requires Acyclic(Sever(forward, x)) && f in forward && f.to != x
    ensures f.from != f.to
  {
    var rank: NodeId -> nat :| IsRank(rank, Sever(forward, x));
    SeverMembers(forward, x, f);
    assert rank(f.from) < rank(f.to);
  }

  /** The settled values and the solution of the severed equations agree on the set. */
  lemma SettledAgrees(forward: seq<Edge>, init: Values, x: NodeId, v: Values, init': Values, w: Values,
                      closed: set<NodeId>)
    requires init.Keys == init'.Keys == v.Keys == w.Keys && EndpointsIn(forward, v.Keys) && closed <= v.Keys
    requires x !in closed && forall e | e in forward && e.to in closed :: e.from in closed
    requires forall m | m in closed :: init[m] == init'[m] && SolvesAt(forward, init, v, m)
    requires EndpointsIn(Sever(forward, x), v.Keys) && Acyclic(Sever(forward, x))
    requires Solves(Sever(forward, x), init', w)
    ensures forall m | m in closed :: v[m] == w[m]
  {
    var cut := Sever(forward, x);
    var rank: NodeId -> nat :| IsRank(rank, cut);
    forall e | e in cut ensures e in forward {
      SeverMembers(forward, x, e);
    }
    forall m | m in closed ensures SolvesAt(cut, init, v, m) && SolvesAt(cut, init', w, m) {
      InboundSever(forward, x, m, init[m], v);
    }
    forall m | m in closed ensures v[m] == w[m] {
      SolutionsAgree(cut, rank, init, init', v, w, closed, m);
    }
  }

  lemma RawInTime(order: seq<NodeId>, forward: seq<Edge>, ids: set<NodeId>, x: NodeId, seeds: Values, fixed: real,
                  outside: set<NodeId>)
    requires Distinct(order) && Elements(order) == ids && EndpointsIn(forward, ids)
    requires EndpointsIn(Sever(forward, x), ids) && Acyclic(Sever(forward, x))
    requires outside <= ids && x !in outside && InTime(order, forward, outside)
    ensures forall m | m in outside ::
              ForwardPass(order, forward, Initial(ids, seeds))[m]
              == RawForward(Sever(forward, x), Initial(ids, seeds[x := fixed]))[m]
  {
    var init, init' := Initial(ids, seeds), Initial(ids, seeds[x := fixed]);
    assert order[0..] == order && order[..|order|] == order;
    PassSettles(order, 0, forward, init, init, outside);
    forall m | m in outside ensures m in order {
      assert m in Elements(order);
    }
    var settled := ForwardPass(order, forward, init);
    SettledAgrees(forward, init, x, settled, init', RawForward(Sever(forward, x), init'), outside);
  }

  /** When the last cycle goes, declaration order was good enough for the unreachable nodes. */
  lemma InTimeLocality(g: GraphDef, x: NodeId, seeds: Values, fixed: real, n: NodeId)
    requires g.Declared() && Distinct(g.nodes) && n in g.nodes && !Reaches(g.edges, x, n) && !DeclaredLate(g, x)
    requires !Acyclic(Forward(g.edges)) && Acyclic(Forward(Severed(g, x).edges))
    ensures Severed(g, x).Declared()
    ensures n in Propagated(g, seeds) && n in Propagated(Severed(g, x), seeds[x := fixed])
    ensures Propagated(Severed(g, x), seeds[x := fixed])[n] == Propagated(g, seeds)[n]
  {
    var ids, outside := g.NodeIds(), Uninfluenced(g, x);
    var forward, feedback := Forward(g.edges), FeedbackOnly(g.edges);
    ForwardDeclared(g.edges, ids);
    SeverDeclared(g.edges, x, ids);
    SeverDeclared(forward, x, ids);
    SeverDeclared(feedback, x, ids);
    SeverCommutes(g.edges, x);
    UninfluencedIsClosed(g, x);
    UninfluencedInTime(g, x);
    RawInTime(g.nodes, forward, ids, x, seeds, fixed, outside);
    FeedbackAgrees(feedback, x, ForwardPass(g.nodes, forward, Initial(ids, seeds)),
                   RawForward(Sever(forward, x), Initial(ids, seeds[x := fixed])), outside);
  }

  /** Locality: a node that cannot be reached from the intervened one, through forward or feedback
      edges, keeps its baseline value, although the severed graph is sorted anew, unless severing removes
      the last cycle of the forward edges and one of them was declared late. */
  lemma {:induction false} Locality(g: GraphDef, x: NodeId, seeds: Values, fixed: real, n: NodeId)
    requires g.Declared() && n in g.nodes && !Reaches(g.edges, x, n)
    requires Acyclic(Forward(g.edges)) || !Acyclic(Forward(Severed(g, x).edges))
             || (Distinct(g.nodes) && !DeclaredLate(g, x))
    ensures Severed(g, x).Declared()
    ensures n in Propagated(g, seeds) && n in Propagated(Severed(g, x), seeds[x := fixed])
    ensures Propagated(Severed(g, x), seeds[x := fixed])[n] == Propagated(g, seeds)[n]
  {
    if Acyclic(Forward(g.edges)) {
      AcyclicLocality(g, x, seeds, fixed, n);
    } else if !Acyclic(Forward(Severed(g, x).edges)) {
      CyclicLocality(g, x, seeds, fixed, n);
    } else {
      InTimeLocality(g, x, seeds, fixed, n);
    }
  }

  // ----- The condition is exact

  /** The nodes and the endpoints, and which edges are feedback: everything but kinds and weights. */
  ghost predicate SameLinks(a: seq<Edge>, b: seq<Edge>) {
    && |a| == |b|
    && forall k | 0 <= k < |a| ::
         a[k].from == b[k].from && a[k].to == b[k].to && (a[k].kind.Feedback? <==> b[k].kind.Feedback?)
  }

  ghost predicate SameShape(g: GraphDef, h: GraphDef) {
    g.nodes == h.nodes && SameLinks(g.edges, h.edges)
  }

  lemma {:induction false} ForwardLinks(a: seq<Edge>, b: seq<Edge>)
    requires SameLinks(a, b)
    ensures SameLinks(Forward(a), Forward(b))
  {
    if a != [] {
      ForwardLinks(a[1..], b[1..]);
    }
  }

  lemma {:induction false} SeverLinks(a: seq<Edge>, b: seq<Edge>, x: NodeId)
    requires SameLinks(a, b)
    ensures SameLinks(Sever(a, x), Sever(b, x))
  {
    if a != [] {
      SeverLinks(a[1..], b[1..], x);
    }
  }

  lemma AcyclicLinks(a: seq<Edge>, b: seq<Edge>)
    requires SameLinks(a, b) && Acyclic(a)
    ensures Acyclic(b)
  {
    var rank: NodeId -> nat :| IsRank(rank, a);
    assert IsRank(rank, b);
  }

  lemma ReachesLinks(a: seq<Edge>, b: seq<Edge>, x: NodeId, n: NodeId)
    requires SameLinks(a, b) && Reaches(a, x, n)
    ensures Reaches(b, x, n)
  {
    var walk :| IsWalk(walk, a) && walk[0] == x && walk[|walk| - 1] == n;
    forall i | 0 <= i < |walk| - 1 ensures Linked(b, walk[i], walk[i + 1]) {
      assert Linked(a, walk[i], walk[i + 1]);
      var e :| e in a && e.from == walk[i] && e.to == walk[i + 1];
      var k :| 0 <= k < |a| && a[k] == e;
      assert b[k] in b;
    }
    assert IsWalk(walk, b);
  }

  lemma UnreachedLinks(a: seq<Edge>, b: seq<Edge>, x: NodeId, n: NodeId)
    requires SameLinks(a, b) && !Reaches(a, x, n)
    ensures !Reaches(b, x, n)
  {
    if Reaches(b, x, n) {
      ReachesLinks(b, a, x, n);
    }
  }

  lemma LateLinks(g: GraphDef, h: GraphDef, x: NodeId)
    requires SameShape(g, h) && DeclaredLate(g, x)
    ensures DeclaredLate(h, x)
  {
    var e, f :| LatePair(g, x, e, f);
    var a, b := Forward(g.edges), Forward(h.edges);
    ForwardLinks(g.edges, h.edges);
    var i :| 0 <= i < |a| && a[i] == e;
    var j :| 0 <= j < |a| && a[j] == f;
    if Reaches(h.edges, x, f.to) {
      ReachesLinks(h.edges, g.edges, x, f.to);
    }
    assert LatePair(h, x, b[i], b[j]);
  }

  /** On this graph locality fails for no seeds, no fixed value and no unreachable node. */
  ghost predicate Local(g: GraphDef, x: NodeId)
    requires g.Declared()
  {
    forall seeds, fixed, n | n in g.nodes && !Reaches(g.edges, x, n) :: Unmoved(g, x, seeds, fixed, n)
  }

  ghost predicate Unmoved(g: GraphDef, x: NodeId, seeds: Values, fixed: real, n: NodeId)
    requires g.Declared()
  {
    SeverDeclared(g.edges, x, g.NodeIds());
    && n in Propagated(g, seeds) && n in Propagated(Severed(g, x), seeds[x := fixed])
    && Propagated(Severed(g, x), seeds[x := fixed])[n] == Propagated(g, seeds)[n]
  }

  /** Nor does it for any other kinds and weights. */
  ghost predicate LocalForShape(g: GraphDef, x: NodeId) {
    forall h | SameShape(g, h) && h.Declared() && UnitWeights(h.edges) :: Local(h, x)
  }

  /** The weights and kinds that show a late declaration: t adds to u and u to m, nothing else counts. */
  function TuneEdge(e: Edge, t: NodeId, u: NodeId, m: NodeId): Edge {
    Edge(e.from, e.to, if e.kind.Feedback? then Feedback else AdditiveFactor,
         if !e.kind.Feedback? && ((e.from == t && e.to == u) || (e.from == u && e.to == m)) then 1.0 else 0.0)
  }

  function Tune(edges: seq<Edge>, t: NodeId, u: NodeId, m: NodeId): (r: seq<Edge>)
    ensures |r| == |edges| && forall i | 0 <= i < |r| :: r[i] == TuneEdge(edges[i], t, u, m)
  {
    seq(|edges|, i requires 0 <= i < |edges| => TuneEdge(edges[i], t, u, m))
  }

  lemma {:induction false} TuneForward(edges: seq<Edge>, t: NodeId, u: NodeId, m: NodeId)
    ensures Forward(Tune(edges, t, u, m)) == Tune(Forward(edges), t, u, m)
  {
    if edges != [] {
      TuneForward(edges[1..], t, u, m);
      assert Tune(edges, t, u, m)[1..] == Tune(edges[1..], t, u, m);
    }
  }

  lemma {:induction false} TuneSever(edges: seq<Edge>, x: NodeId, t: NodeId, u: NodeId, m: NodeId)
    ensures Sever(Tune(edges, t, u, m), x) == Tune(Sever(edges, x), t, u, m)
  {
    if edges != [] {
      TuneSever(edges[1..], x, t, u, m);
      assert Tune(edges, t, u, m)[1..] == Tune(edges[1..], t, u, m);
    }
  }

  lemma TunedApply(e: Edge, t: NodeId, u: NodeId, m: NodeId, up: real, down: real)
    requires !e.kind.Feedback?
    ensures var tuned := TuneEdge(e, t, u, m);
            ApplyEdge(tuned.kind, up, down, tuned.weight) == if tuned.weight == 1.0 then down + up else down
  {
  }

  /** A node that only weightless edges and a still source feed keeps what it holds. */
  lemma {:induction false} TunedStill(edges: seq<Edge>, t: NodeId, u: NodeId, m: NodeId, n: NodeId, a: real, v: Values)
    requires forall e | e in edges :: !e.kind.Feedback?
    requires EndpointsIn(Tune(edges, t, u, m), v.Keys) && u in v
    requires n != u && (n == m ==> v[u] == 0.0)
    ensures Inbound(Tune(edges, t, u, m), n, a, v) == a
  {
    if edges != [] {
      var e, all := edges[0], Tune(edges, t, u, m);
      assert all[1..] == Tune(edges[1..], t, u, m) && all[0] == TuneEdge(e, t, u, m) && all[0] in all && e in edges;
      TunedApply(e, t, u, m, v[e.from], a);
      assert Inbound(all, n, a, v) == Inbound(Tune(edges[1..], t, u, m), n, a, v);
      TunedStill(edges[1..], t, u, m, n, a, v);
    }
  }

  /** A node with a full edge from a source gains at least what the source holds. */
  lemma {:induction false} TunedFlows(edges: seq<Edge>, t: NodeId, u: NodeId, m: NodeId, s: NodeId, n: NodeId,
                                      a: real, v: Values)
    requires forall e | e in edges :: !e.kind.Feedback?
    requires EndpointsIn(Tune(edges, t, u, m), v.Keys) && s in v && v[s] >= 0.0
    requires u != m && ((s == t && n == u) || (s == u && n == m))
    ensures Inbound(Tune(edges, t, u, m), n, a, v) >= a
    ensures Linked(edges, s, n) ==> Inbound(Tune(edges, t, u, m), n, a, v) >= a + v[s]
  {
    if edges != [] {
      var e, rest, all := edges[0], edges[1..], Tune(edges, t, u, m);
      assert all[1..] == Tune(rest, t, u, m) && all[0] == TuneEdge(e, t, u, m) && all[0] in all && e in edges;
      var b := if e.to == n && e.from == s then a + v[s] else a;
      TunedApply(e, t, u, m, v[e.from], a);
      assert Inbound(all, n, a, v) == Inbound(Tune(rest, t, u, m), n, b, v);
      TunedFlows(rest, t, u, m, s, n, b, v);
      if Linked(edges, s, n) && !(e.from == s && e.to == n) {
        var d :| d in edges && d.from == s && d.to == n;
        assert d in rest;
      }
    }
  }

  lemma {:induction false} PassConcat(a: seq<NodeId>, b: seq<NodeId>, edges: seq<Edge>, v: Values)
    requires EndpointsIn(edges, v.Keys)
    ensures ForwardPass(a + b, edges, v) == ForwardPass(b, edges, ForwardPass(a, edges, v))
  {
    if a == [] {
      assert a + b == b;
    } else {
      assert (a + b)[0] == a[0] && (a + b)[1..] == a[1..] + b;
      PassConcat(a[1..], b, edges, VisitNode(edges, a[0], v));
    }
  }

  /** A node keeps its seed until its one visit and that visit's value afterwards. */
  lemma PassAtVisit(order: seq<NodeId>, i: nat, edges: seq<Edge>, v: Values)
    requires Distinct(order) && i < |order| && EndpointsIn(edges, v.Keys) && order[i] in v
    ensures ForwardPass(order[..i], edges, v)[order[i]] == v[order[i]]
    ensures ForwardPass(order, edges, v)[order[i]]
         == VisitNode(edges, order[i], ForwardPass(order[..i], edges, v))[order[i]]
  {
    var n, before, after := order[i], order[..i], order[i + 1..];
    assert order == before + ([n] + after) && ([n] + after)[1..] == after;
    PassConcat(before, [n] + after, edges, v);
    PassElsewhere(before, edges, v, n);
    PassElsewhere(after, edges, VisitNode(edges, n, ForwardPass(before, edges, v)), n);
  }

  lemma VisitStill(edges: seq<Edge>, t: NodeId, u: NodeId, m: NodeId, w: Values)
    requires forall e | e in edges :: !e.kind.Feedback? && (e.to == m ==> e.from != m)
    requires EndpointsIn(Tune(edges, t, u, m), w.Keys) && u in w && m in w && u != m && w[u] == 0.0
    ensures VisitNode(Tune(edges, t, u, m), m, w)[m] == w[m]
  {
    VisitIsInbound(Tune(edges, t, u, m), m, w);
    TunedStill(edges, t, u, m, m, w[m], w);
  }

  /** Declaration order visits m while u still holds its zero. */
  lemma LateVisit(order: seq<NodeId>, edges: seq<Edge>, t: NodeId, u: NodeId, m: NodeId, v: Values)
    requires Distinct(order) && m in order && u in order && IndexOf(order, m) < IndexOf(order, u)
    requires forall e | e in edges :: !e.kind.Feedback? && (e.to == m ==> e.from != m)
    requires EndpointsIn(Tune(edges, t, u, m), v.Keys) && u in v && m in v && v[u] == v[m] == 0.0
    ensures ForwardPass(order, Tune(edges, t, u, m), v)[m] == 0.0
  {
    var i, tuned := IndexOf(order, m), Tune(edges, t, u, m);
    NotBeforeIndex(order, i, u);
    PassAtVisit(order, i, tuned, v);
    PassElsewhere(order[..i], tuned, v, u);
    VisitStill(edges, t, u, m, ForwardPass(order[..i], tuned, v));
  }

  lemma NotBeforeIndex(order: seq<NodeId>, i: nat, n: NodeId)
    requires Distinct(order) && n in order && i < IndexOf(order, n)
    ensures n !in order[..i]
  {
    assert order[IndexOf(order, n)] == n;
  }

  /** The equations carry the value of t through u to m. */
  lemma EarlyFlow(edges: seq<Edge>, t: NodeId, u: NodeId, m: NodeId, init: Values)
    requires EndpointsIn(Tune(edges, t, u, m), init.Keys) && Acyclic(Tune(edges, t, u, m))
    requires forall e | e in edges :: !e.kind.Feedback?
    requires Linked(edges, t, u) && Linked(edges, u, m) && t != u && t != m && u != m
    requires t in init && u in init && m in init && init[t] == 0.5 && init[u] == init[m] == 0.0
    ensures RawForward(Tune(edges, t, u, m), init)[m] >= 0.5
  {
    var tuned := Tune(edges, t, u, m);
    var v := RawForward(tuned, init);
    assert SolvesAt(tuned, init, v, t) && SolvesAt(tuned, init, v, u) && SolvesAt(tuned, init, v, m);
    TunedStill(edges, t, u, m, t, init[t], v);
    TunedFlows(edges, t, u, m, t, u, init[u], v);
    TunedFlows(edges, t, u, m, u, m, init[m], v);
  }

  lemma {:induction false} FeedbackStill(edges: seq<Edge>, v: Values, n: NodeId)
    requires EndpointsIn(edges, v.Keys) && n in v && forall e | e in edges :: e.weight == 0.0
    ensures FeedbackPass(edges, v)[n] == v[n]
  {
    if edges != [] {
      var e := edges[0];
      FeedbackStill(edges[1..], v[e.to := ApplyFeedback(v[e.from], v[e.to], e.weight)], n);
    }
  }

  /** Without weight on the feedback edges the report is the rounded raw value. */
  lemma ReportStill(g: GraphDef, seeds: Values, n: NodeId)
    requires g.Declared() && n in g.nodes && EndpointsIn(Forward(g.edges), g.NodeIds())
    requires forall e | e in FeedbackOnly(g.edges) :: e.weight == 0.0
    ensures n in Propagated(g, seeds)
    ensures var forward, init := Forward(g.edges), Initial(g.NodeIds(), seeds);
            && (Acyclic(forward) ==> Propagated(g, seeds)[n] == Clamp(Round6(RawForward(forward, init)[n])))
            && (!Acyclic(forward) ==> Propagated(g, seeds)[n] == Clamp(Round6(ForwardPass(g.nodes, forward, init)[n])))
  {
    ForwardDeclared(g.edges, g.NodeIds());
    var forward, init := Forward(g.edges), Initial(g.NodeIds(), seeds);
    var raw := if Acyclic(forward) then RawForward(forward, init) else ForwardPass(g.nodes, forward, init);
    FeedbackStill(FeedbackOnly(g.edges), raw, n);
  }

  /** A set of nodes that no edge leaves holds everything it reaches. */
  lemma {:induction false} WalkStays(walk: seq<NodeId>, edges: seq<Edge>, within: set<NodeId>)
    requires IsWalk(walk, edges) && walk[0] in within
    requires forall e | e in edges && e.from in within :: e.to in within
    ensures walk[|walk| - 1] in within
  {
    if |walk| > 1 {
      assert Linked(edges, walk[0], walk[1]);
      forall i | 0 <= i < |walk[1..]| - 1 ensures Linked(edges, walk[1..][i], walk[1..][i + 1]) {
        assert Linked(edges, walk[i + 1], walk[i + 2]);
      }
      WalkStays(walk[1..], edges, within);
    }
  }

  /** A chain n0, n1, n2 declared backwards, beside a node with a self-loop. */
  function LoopBesideChain(): GraphDef {
    GraphDef(["n2", "n1", "n0", "x"],
             [Edge("n0", "n1", Proportional, 1.0), Edge("n1", "n2", Proportional, 1.0),
                 Edge("x", "x", Proportional, 1.0)])
  }

  function ChainSeeds(): Values {
    map["n0" := 1.0, "n1" := 0.0, "n2" := 0.0, "x" := 0.0]
  }

  lemma ChainSplits(edges: seq<Edge>)
    requires edges == LoopBesideChain().edges
    ensures Forward(edges) == edges && FeedbackOnly(edges) == []
    ensures Sever(edges, "x") == edges[..2]
  {
    var tail := edges[1..];
    assert tail[1..] == edges[2..] && edges[2..][1..] == [];
    assert Forward(edges[2..]) == edges[2..] && FeedbackOnly(edges[2..]) == [] && Sever(edges[2..], "x") == [];
    assert Forward(tail) == tail && FeedbackOnly(tail) == [] && Sever(tail, "x") == [tail[0]];
    assert edges[..2] == [edges[0]] + [tail[0]];
  }

  lemma ChainCycles(edges: seq<Edge>)
    requires edges == LoopBesideChain().edges
    ensures !Acyclic(edges) && Acyclic(edges[..2])
  {
    assert edges[2] in edges;
    forall rank: NodeId -> nat ensures !IsRank(rank, edges) {
      assert edges[2].from == edges[2].to;
    }
    var rank: NodeId -> nat := n => if n == "n0" then 0 else if n == "n1" then 1 else 2;
    assert IsRank(rank, edges[..2]);
  }

  lemma ChainUnreached(edges: seq<Edge>)
    requires edges == LoopBesideChain().edges
    ensures !Reaches(edges, "x", "n2")
  {
    forall walk | IsWalk(walk, edges) && walk[0] == "x" ensures walk[|walk| - 1] != "n2" {
      WalkStays(walk, edges, {"x"});
    }
  }

  lemma ChainDeclared(g: GraphDef)
    requires g == LoopBesideChain()
    ensures g.NodeIds() == ChainSeeds().Keys
    ensures EndpointsIn(g.edges, ChainSeeds().Keys) && EndpointsIn(g.edges[..2], ChainSeeds().Keys)
  {
    assert g.nodes[0] == "n2" && g.nodes[1] == "n1" && g.nodes[2] == "n0" && g.nodes[3] == "x";
  }

  /** Declaration order visits n2 before n1 has its value. */
  lemma ChainBackwards(g: GraphDef)
    requires g == LoopBesideChain() && EndpointsIn(g.edges, ChainSeeds().Keys)
    ensures ForwardPass(g.nodes, g.edges, ChainSeeds())["n2"] == 0.0
  {
    var seeds, order := ChainSeeds(), g.nodes;
    VisitIsInbound(g.edges, "n2", seeds);
    assert g.edges[1..][1..] == g.edges[2..] && g.edges[2..][1..] == [];
    assert Inbound(g.edges, "n2", 0.0, seeds) == Inbound(g.edges[1..], "n2", 0.0, seeds)
        == Inbound(g.edges[2..], "n2", 0.0, seeds);
    PassElsewhere(order[1..], g.edges, VisitNode(g.edges, "n2", seeds), "n2");
  }

  /** The equations carry the seed of n0 to n2. */
  lemma ChainForwards(chain: seq<Edge>, init: Values)
    requires chain == LoopBesideChain().edges[..2] && init.Keys == ChainSeeds().Keys
    requires EndpointsIn(chain, init.Keys) && Acyclic(chain) && init["n0"] == 1.0
    ensures RawForward(chain, init)["n2"] == 1.0
  {
    var v := RawForward(chain, init);
    var tail := chain[1..];
    assert tail[0] == chain[1] && tail[1..] == [];
    assert SolvesAt(chain, init, v, "n0") && SolvesAt(chain, init, v, "n1") && SolvesAt(chain, init, v, "n2");
    assert Inbound(chain, "n0", init["n0"], v) == Inbound(tail, "n0", init["n0"], v) == init["n0"];
    assert Inbound(chain, "n1", init["n1"], v) == Inbound(tail, "n1", v["n0"], v) == v["n0"];
    assert Inbound(chain, "n2", init["n2"], v) == Inbound(tail, "n2", init["n2"], v) == v["n1"];
  }

  lemma ChainBaseline(g: GraphDef, seeds: Values)
    requires g == LoopBesideChain() && seeds == ChainSeeds()
    ensures g.Declared() && "n2" in Propagated(g, seeds) && Propagated(g, seeds)["n2"] == 0.0
  {
    ChainDeclared(g);
    ChainSplits(g.edges);
    ChainCycles(g.edges);
    ChainBackwards(g);
    assert Initial(g.NodeIds(), seeds) == seeds;
    ReportStill(g, seeds, "n2");
    BeyondUnitReported(0.0, 0.0);
  }

  lemma ChainHeld(g: GraphDef, cut: GraphDef, seeds: Values)
    requires g == LoopBesideChain() && cut == Severed(g, "x") && "n0" in seeds && seeds["n0"] == 1.0
    ensures cut.Declared() && "n2" in Propagated(cut, seeds) && Propagated(cut, seeds)["n2"] == 1.0
  {
    ChainDeclared(g);
    ChainSplits(g.edges);
    SeverCommutes(g.edges, "x");
    ChainCycles(g.edges);
    ChainForwards(g.edges[..2], Initial(g.NodeIds(), seeds));
    ReportStill(cut, seeds, "n2");
    BeyondUnitReported(1.0, 1.0);
  }

  /** Holding x removes its self-loop, so n1 is now visited before n2: n2 changes although x does not reach it. */
  lemma {:induction false} LocalityNeedsOrder(g: GraphDef, seeds: Values, fixed: real)
    requires g == LoopBesideChain() && seeds == ChainSeeds()
    ensures g.Declared() && Severed(g, "x").Declared() && !Reaches(g.edges, "x", "n2")
    ensures "n2" in Propagated(g, seeds) && "n2" in Propagated(Severed(g, "x"), seeds["x" := fixed])
    ensures Propagated(g, seeds)["n2"] == 0.0 && Propagated(Severed(g, "x"), seeds["x" := fixed])["n2"] == 1.0
  {
    ChainUnreached(g.edges);
    ChainBaseline(g, seeds);
    ChainHeld(g, Severed(g, "x"), seeds["x" := fixed]);
  }

  // ----- The exact statement

  lemma TunedShape(g: GraphDef, x: NodeId, t: NodeId, u: NodeId, m: NodeId)
    requires g.Declared() && !Acyclic(Forward(g.edges)) && Acyclic(Sever(Forward(g.edges), x))
    ensures var h := GraphDef(g.nodes, Tune(g.edges, t, u, m));
            && SameShape(g, h) && h.Declared() && UnitWeights(h.edges)
            && Forward(h.edges) == Tune(Forward(g.edges), t, u, m) && !Acyclic(Forward(h.edges))
            && Forward(Severed(h, x).edges) == Tune(Sever(Forward(g.edges), x), t, u, m)
            && Acyclic(Forward(Severed(h, x).edges))
            && (forall e | e in FeedbackOnly(h.edges) :: e.weight == 0.0)
            && (forall e | e in FeedbackOnly(Severed(h, x).edges) :: e.weight == 0.0)
  {
    var forward, h := Forward(g.edges), GraphDef(g.nodes, Tune(g.edges, t, u, m));
    TuneForward(g.edges, t, u, m);
    TuneSever(forward, x, t, u, m);
    SeverCommutes(h.edges, x);
    forall e | e in h.edges ensures e.from in g.NodeIds() && e.to in g.NodeIds() && 0.0 <= e.weight <= 1.0 {
      var i :| 0 <= i < |h.edges| && h.edges[i] == e;
      assert g.edges[i] in g.edges;
    }
    if Acyclic(Forward(h.edges)) {
      AcyclicLinks(Forward(h.edges), forward);
    }
    AcyclicLinks(Sever(forward, x), Tune(Sever(forward, x), t, u, m));
    forall e | e in FeedbackOnly(h.edges) ensures e.weight == 0.0 {
      ForwardMembers(h.edges, e);
    }
    forall e | e in FeedbackOnly(Severed(h, x).edges) ensures e.weight == 0.0 {
      ForwardMembers(Severed(h, x).edges, e);
      SeverMembers(h.edges, x, e);
    }
  }

  /** What a late pair says about its three nodes. */
  lemma LateNodes(g: GraphDef, x: NodeId, e: Edge, f: Edge)
    requires g.Declared() && Acyclic(Sever(Forward(g.edges), x)) && LatePair(g, x, e, f)
    ensures var forward, cut := Forward(g.edges), Sever(Forward(g.edges), x);
            && e.from != f.from && e.from != f.to && f.from != f.to && x != e.from && x != f.from && x != f.to
            && Linked(cut, e.from, f.from) && Linked(cut, f.from, f.to)
            && e.from in g.nodes && f.from in g.nodes && f.to in g.nodes
            && (forall d | d in forward :: !d.kind.Feedback? && (d.to == f.to ==> d.from != f.to))
  {
    var forward := Forward(g.edges);
    var rank: NodeId -> nat :| IsRank(rank, Sever(forward, x));
    UninfluencedIsClosed(g, x);
    ForwardDeclared(g.edges, g.NodeIds());
    assert f.to in Uninfluenced(g, x) && f.from in Uninfluenced(g, x) && e.from in Uninfluenced(g, x);
    SeverMembers(forward, x, e);
    SeverMembers(forward, x, f);
    assert rank(e.from) < rank(f.from) < rank(f.to);
    forall d | d in forward ensures !d.kind.Feedback? && (d.to == f.to ==> d.from != f.to) {
      ForwardMembers(g.edges, d);
      SeverMembers(forward, x, d);
    }
  }

  /** A late declaration moves its target, for suitable kinds, weights and seeds, whatever the fixed value. */
  lemma {:induction false} LateMoves(g: GraphDef, h: GraphDef, x: NodeId, e: Edge, f: Edge, seeds: Values, fixed: real)
    requires g.Declared() && Distinct(g.nodes) && LatePair(g, x, e, f)
    requires !Acyclic(Forward(g.edges)) && Acyclic(Sever(Forward(g.edges), x))
    requires h == GraphDef(g.nodes, Tune(g.edges, e.from, f.from, f.to)) && h.Declared()
    requires seeds == map[e.from := 0.5, f.from := 0.0, f.to := 0.0]
    ensures !Unmoved(h, x, seeds, fixed, f.to)
  {
    var t, u, m := e.from, f.from, f.to;
    TunedShape(g, x, t, u, m);
    LateNodes(g, x, e, f);
    LateReport(g, h, x, t, u, m, seeds);
    EarlyReport(g, h, x, t, u, m, seeds[x := fixed]);
  }

  lemma LateReport(g: GraphDef, h: GraphDef, x: NodeId, t: NodeId, u: NodeId, m: NodeId, seeds: Values)
    requires g.nodes == h.nodes && h.Declared() && Distinct(g.nodes) && m in g.nodes && u in g.nodes
    requires IndexOf(g.nodes, m) < IndexOf(g.nodes, u)
    requires Forward(h.edges) == Tune(Forward(g.edges), t, u, m) && !Acyclic(Forward(h.edges))
    requires forall d | d in Forward(g.edges) :: !d.kind.Feedback? && (d.to == m ==> d.from != m)
    requires forall d | d in FeedbackOnly(h.edges) :: d.weight == 0.0
    requires u in seeds && m in seeds && seeds[u] == seeds[m] == 0.0
    ensures m in Propagated(h, seeds) && Propagated(h, seeds)[m] == 0.0
  {
    ForwardDeclared(h.edges, h.NodeIds());
    LateVisit(g.nodes, Forward(g.edges), t, u, m, Initial(h.NodeIds(), seeds));
    ReportStill(h, seeds, m);
    BeyondUnitReported(0.0, 0.0);
  }

  lemma EarlyReport(g: GraphDef, h: GraphDef, x: NodeId, t: NodeId, u: NodeId, m: NodeId, seeds: Values)
    requires g.nodes == h.nodes && h.Declared() && t in g.nodes && m in g.nodes && u in g.nodes
    requires t != u && t != m && u != m
    requires Forward(Severed(h, x).edges) == Tune(Sever(Forward(g.edges), x), t, u, m)
    requires Acyclic(Forward(Severed(h, x).edges))
    requires Linked(Sever(Forward(g.edges), x), t, u) && Linked(Sever(Forward(g.edges), x), u, m)
    requires forall d | d in Forward(g.edges) :: !d.kind.Feedback?
    requires forall d | d in FeedbackOnly(Severed(h, x).edges) :: d.weight == 0.0
    requires t in seeds && u in seeds && m in seeds && seeds[t] == 0.5 && seeds[u] == seeds[m] == 0.0
    ensures Severed(h, x).Declared() && m in Propagated(Severed(h, x), seeds)
    ensures Propagated(Severed(h, x), seeds)[m] > 0.0
  {
    var cut, forward := Severed(h, x), Sever(Forward(g.edges), x);
    SeverDeclared(h.edges, x, h.NodeIds());
    ForwardDeclared(cut.edges, cut.NodeIds());
    forall d | d in forward ensures !d.kind.Feedback? {
      SeverMembers(Forward(g.edges), x, d);
    }
    var init := Initial(cut.NodeIds(), seeds);
    EarlyFlow(forward, t, u, m, init);
    ReportStill(cut, seeds, m);
    AboveHalf(RawForward(Forward(cut.edges), init)[m]);
  }

  lemma AboveHalf(x: real)
    requires x >= 0.5
    ensures Clamp(Round6(x)) > 0.0
  {
  }

  /** The graph's shape keeps locality for all kinds, unit weights, seeds and fixed values exactly when its
      forward edges are acyclic, or stay cyclic when severed, or no edge into an unreachable node reads a
      source that is declared later and has inbound edges itself. */
  lemma {:induction false} LocalityExactly(g: GraphDef, x: NodeId)
    requires g.Declared() && Distinct(g.nodes)
    ensures LocalForShape(g, x)
       <==> Acyclic(Forward(g.edges)) || !Acyclic(Forward(Severed(g, x).edges)) || !DeclaredLate(g, x)
  {
    if Acyclic(Forward(g.edges)) || !Acyclic(Forward(Severed(g, x).edges)) || !DeclaredLate(g, x) {
      forall h | SameShape(g, h) && h.Declared() && UnitWeights(h.edges) ensures Local(h, x) {
        ShapeLocal(g, h, x);
      }
    } else {
      SeverCommutes(g.edges, x);
      ShapeNotLocal(g, x);
    }
  }

  lemma ShapeNotLocal(g: GraphDef, x: NodeId)
    requires g.Declared() && Distinct(g.nodes) && DeclaredLate(g, x)
    requires !Acyclic(Forward(g.edges)) && Acyclic(Sever(Forward(g.edges), x))
    ensures !LocalForShape(g, x)
  {
    var e, f :| LatePair(g, x, e, f);
    var h := GraphDef(g.nodes, Tune(g.edges, e.from, f.from, f.to));
    var seeds := map[e.from := 0.5, f.from := 0.0, f.to := 0.0];
    assert SameShape(g, h) && h.Declared() && UnitWeights(h.edges) by {
      TunedShape(g, x, e.from, f.from, f.to);
    }
    assert f.to in h.nodes by {
      LateNodes(g, x, e, f);
    }
    UnreachedLinks(g.edges, h.edges, x, f.to);
    LateMoves(g, h, x, e, f, seeds, 0.0);
    Refutes(g, h, x, seeds, 0.0, f.to);
  }

  lemma Refutes(g: GraphDef, h: GraphDef, x: NodeId, seeds: Values, fixed: real, n: NodeId)
    requires SameShape(g, h) && h.Declared() && UnitWeights(h.edges)
    requires n in h.nodes && !Reaches(h.edges, x, n) && !Unmoved(h, x, seeds, fixed, n)
    ensures !LocalForShape(g, x)
  {
    assert !Local(h, x);
  }

  /** The condition is one on the shape. */
  lemma ShapeCondition(g: GraphDef, h: GraphDef, x: NodeId)
    requires SameShape(g, h)
    ensures Acyclic(Forward(g.edges)) ==> Acyclic(Forward(h.edges))
    ensures Acyclic(Forward(Severed(h, x).edges)) ==> Acyclic(Forward(Severed(g, x).edges))
    ensures DeclaredLate(h, x) ==> DeclaredLate(g, x)
  {
    ForwardLinks(g.edges, h.edges);
    SeverLinks(g.edges, h.edges, x);
    ForwardLinks(Severed(g, x).edges, Severed(h, x).edges);
    if Acyclic(Forward(g.edges)) {
      AcyclicLinks(Forward(g.edges), Forward(h.edges));
    }
    if Acyclic(Forward(Severed(h, x).edges)) {
      AcyclicLinks(Forward(Severed(h, x).edges), Forward(Severed(g, x).edges));
    }
    if DeclaredLate(h, x) {
      LateLinks(h, g, x);
    }
  }

  lemma ShapeLocal(g: GraphDef, h: GraphDef, x: NodeId)
    requires SameShape(g, h) && h.Declared() && Distinct(g.nodes)
    requires Acyclic(Forward(g.edges)) || !Acyclic(Forward(Severed(g, x).edges)) || !DeclaredLate(g, x)
    ensures Local(h, x)
  {
    ShapeCondition(g, h, x);
    forall seeds, fixed, n | n in h.nodes && !Reaches(h.edges, x, n) ensures Unmoved(h, x, seeds, fixed, n) {
      Locality(h, x, seeds, fixed, n);
    }
  }

  /** Unreachable nodes show no change. */
  lemma {:induction false} UnreachableDelta(g: GraphDef, x: NodeId, seeds: Values, fixed: real, n: NodeId)
    requires g.Declared() && Severed(g, x).Declared() && n in g.nodes && !Reaches(g.edges, x, n)
    requires Acyclic(Forward(g.edges)) || !Acyclic(Forward(Severed(g, x).edges))
             || (Distinct(g.nodes) && !DeclaredLate(g, x))
    ensures Delta(Propagated(g, seeds), Propagated(Severed(g, x), seeds[x := fixed]), n) == 0.0
  {
    Locality(g, x, seeds, fixed, n);
    QuantizeIdentity(0.0, 1000000.0);
  }

  /** A reported change adds up exactly: baseline plus change is the intervened score, of every node. */
  lemma {:induction false} DeltaAddsUp(g: GraphDef, x: NodeId, seeds: Values, fixed: real, n: NodeId)
    requires g.Declared() && Severed(g, x).Declared() && n in g.nodes
    ensures var before, after := Propagated(g, seeds), Propagated(Severed(g, x), seeds[x := fixed]);
            && n in before && n in after && n in Deltas(before, after)
            && before[n] + Deltas(before, after)[n] == after[n]
  {
    var before, after := Propagated(g, seeds), Propagated(Severed(g, x), seeds[x := fixed]);
    PropagatedKeys(g, seeds);
    PropagatedKeys(Severed(g, x), seeds[x := fixed]);
    assert OnGrid6(before[n]) && OnGrid6(after[n]) by {
      Ranges.PropagatedOnGrid(g, seeds, n);
      Ranges.PropagatedOnGrid(Severed(g, x), seeds[x := fixed], n);
    }
    ChangeAddsUp(before, after, n);
  }

  lemma ChangeAddsUp(before: Values, after: Values, n: NodeId)
    requires n in before && n in after && OnGrid6(before[n]) && OnGrid6(after[n])
    ensures n in Deltas(before, after) && before[n] + Deltas(before, after)[n] == after[n]
  {
    DifferenceOnGrid(after[n], before[n]);
    Round6Identity(after[n] - before[n]);
  }

  lemma PropagatedKeys(g: GraphDef, seeds: Values)
    requires g.Declared()
    ensures Propagated(g, seeds).Keys == g.NodeIds()
  {
    ForwardDeclared(g.edges, g.NodeIds());
  }

  lemma DifferenceOnGrid(x: real, y: real)
    requires OnGrid6(x) && OnGrid6(y)
    ensures OnGrid6(x - y)
  {
    var i, j := (x * 1000000.0).Floor, (y * 1000000.0).Floor;
    FloorOfWhole((x - y) * 1000000.0, i - j);
  }

  lemma FloorOfWhole(x: real, k: int)
    requires x == k as real
    ensures x.Floor as real == x
  {
  }
}
