/** The coherence index: the mean of the propagated scores, weighted by inbound edge weight. */
module CoherenceIndex {
  import opened RealArith
  import opened Rounding
  import opened Graph
  import opened StructuralModel
  import opened Ranges
  import opened Propagation
  import opened Sequences
  import opened Sorting
  import opened SparseVectors

  /** The scores as a dictionary lists them. */
  type Scores = Dict<NodeId, real>

  datatype CoherenceReport = CoherenceReport(nodeScores: Scores, index: real, weakest: NodeId, strongest: NodeId)

  function WeightOf(weights: map<NodeId, real>, n: NodeId): real {
    if n in weights then weights[n] else 1.0
  }

  function SumOf(scores: Scores, f: ((NodeId, real)) -> real): real {
    if scores == [] then 0.0 else f(scores[0]) + SumOf(scores[1..], f)
  }

  function Contribution(weights: map<NodeId, real>): ((NodeId, real)) -> real {
    (s: (NodeId, real)) => s.1 * WeightOf(weights, s.0)
  }

  function Weighing(weights: map<NodeId, real>): ((NodeId, real)) -> real {
    (s: (NodeId, real)) => WeightOf(weights, s.0)
  }

  function WeightedSum(scores: Scores, weights: map<NodeId, real>): real {
    SumOf(scores, Contribution(weights))
  }

  function TotalWeight(scores: Scores, weights: map<NodeId, real>): real {
    SumOf(scores, Weighing(weights))
  }

  function WeightedMean(scores: Scores, weights: map<NodeId, real>): real {
    var total := TotalWeight(scores, weights);
    if total > 0.0 then WeightedSum(scores, weights) / total else 0.0
  }

  function ByScore(scores: Scores): (r: seq<Keyed<NodeId>>)
    ensures |r| == |scores|
    ensures forall i | 0 <= i < |r| :: r[i] == Keyed(scores[i].1, 0.0, scores[i].0)
  {
    seq(|scores|, i requires 0 <= i < |scores| => Keyed(scores[i].1, 0.0, scores[i].0))
  }

  /** The i-th score is the lowest; among equally low ones it is listed first. */
  ghost predicate FirstLowest(scores: Scores, i: nat)
    requires i < |scores|
  {
    forall j | 0 <= j < |scores| :: scores[i].1 <= scores[j].1 && (j < i ==> scores[i].1 < scores[j].1)
  }

  /** The i-th score is the highest; among equally high ones it is listed last. */
  ghost predicate LastHighest(scores: Scores, i: nat)
    requires i < |scores|
  {
    forall j | 0 <= j < |scores| :: scores[j].1 <= scores[i].1 && (i < j ==> scores[j].1 < scores[i].1)
  }

  ghost predicate NamesExtremes(scores: Scores, weakest: NodeId, strongest: NodeId) {
    && (exists i: nat :: i < |scores| && FirstLowest(scores, i) && scores[i].0 == weakest)
    && (exists i: nat :: i < |scores| && LastHighest(scores, i) && scores[i].0 == strongest)
  }

  lemma EndsNameExtremes(scores: Scores, ranked: seq<Keyed<NodeId>>)
    requires exists first, last :: EndsOf(ByScore(scores), ranked, first, last)
    ensures ranked != [] && |ranked| == |scores|
    ensures NamesExtremes(scores, ranked[0].item, ranked[|ranked| - 1].item)
  {
    var first, last :| EndsOf(ByScore(scores), ranked, first, last);
    FirstIsLowest(scores, ranked, first, last);
    LastIsHighest(scores, ranked, first, last);
  }

  lemma FirstIsLowest(scores: Scores, ranked: seq<Keyed<NodeId>>, first: nat, last: nat)
    requires EndsOf(ByScore(scores), ranked, first, last)
    ensures FirstLowest(scores, first)
  {
    var keyed := ByScore(scores);
    forall j | 0 <= j < |scores|
      ensures scores[first].1 <= scores[j].1 && (j < first ==> scores[first].1 < scores[j].1)
    {
      assert keyed[first].AtMost(keyed[j]) && (j < first ==> !keyed[j].SameKey(keyed[first]));
    }
  }

  lemma LastIsHighest(scores: Scores, ranked: seq<Keyed<NodeId>>, first: nat, last: nat)
    requires EndsOf(ByScore(scores), ranked, first, last)
    ensures LastHighest(scores, last)
  {
    var keyed := ByScore(scores);
    forall j | 0 <= j < |scores|
      ensures scores[j].1 <= scores[last].1 && (last < j ==> scores[j].1 < scores[last].1)
    {
      assert keyed[j].AtMost(keyed[last]) && (last < j ==> !keyed[j].SameKey(keyed[last]));
    }
  }

  class CoherenceIndexCalculator {
    const weights: map<NodeId, real>

    constructor (inboundWeightSum: map<NodeId, real>)
      ensures weights == inboundWeightSum
    {
      weights := inboundWeightSum;
    }

    method Compute(propagated: Scores) returns (report: CoherenceReport)
      ensures report.nodeScores == propagated
      ensures report.index == Round6(Clamp(WeightedMean(propagated, weights)))
      ensures propagated == [] ==> report.index == 0.0 && report.weakest == "" && report.strongest == ""
      ensures propagated != [] ==> NamesExtremes(propagated, report.weakest, report.strongest)
    {
      if propagated == [] {
        Round6Identity(0.0);
        return CoherenceReport([], 0.0, "", "");
      }
      var weightedSum, totalWeight := SumUp(propagated);
      var index := if totalWeight > 0.0 then weightedSum / totalWeight else 0.0;
      var weakest, strongest := Extremes(propagated);
      report := CoherenceReport(propagated, Round6(Clamp(index)), weakest, strongest);
    }

    method Extremes(propagated: Scores) returns (weakest: NodeId, strongest: NodeId)
      requires propagated != []
      ensures NamesExtremes(propagated, weakest, strongest)
    {
      var sortedNodes := SortedNodes(propagated);
      EndsNameExtremes(propagated, sortedNodes);
      weakest, strongest := sortedNodes[0].item, sortedNodes[|sortedNodes| - 1].item;
    }

    method SortedNodes(propagated: Scores) returns (sortedNodes: seq<Keyed<NodeId>>)
      requires propagated != []
      ensures exists first, last :: EndsOf(ByScore(propagated), sortedNodes, first, last)
    {
      sortedNodes := Sort(ByScore(propagated));
      ghost var first, last := SortEnds(ByScore(propagated));
    }

    method SumUp(propagated: Scores) returns (weightedSum: real, totalWeight: real)
      ensures weightedSum == WeightedSum(propagated, weights) && totalWeight == TotalWeight(propagated, weights)
    {
      weightedSum, totalWeight := 0.0, 0.0;
      assert propagated[0..] == propagated;
      for i := 0 to |propagated|
        invariant weightedSum + WeightedSum(propagated[i..], weights) == WeightedSum(propagated, weights)
        invariant totalWeight + TotalWeight(propagated[i..], weights) == TotalWeight(propagated, weights)
      {
        assert propagated[i..][1..] == propagated[i + 1..];
        var w := WeightOf(weights, propagated[i].0);
        weightedSum := weightedSum + propagated[i].1 * w;
        totalWeight := totalWeight + w;
      }
    }
  }

  ghost predicate PositiveWeights(scores: Scores, weights: map<NodeId, real>) {
    forall s | s in scores :: WeightOf(weights, s.0) > 0.0
  }

  lemma ExtendBounds(lo: real, x: real, hi: real, w: real, xw: real, rest: real, sum: real)
    requires lo <= x <= hi && w >= 0.0 && xw == x * w && lo * rest <= sum <= hi * rest
    ensures lo * (w + rest) <= xw + sum <= hi * (w + rest)
  {
    MulMono(lo, x, w);
    MulMono(x, hi, w);
    assert lo * (w + rest) == lo * w + lo * rest;
    assert hi * (w + rest) == hi * w + hi * rest;
  }

  lemma {:induction false} WeightedSumBounds(scores: Scores, weights: map<NodeId, real>, lo: real, hi: real)
    requires PositiveWeights(scores, weights)
    requires forall s | s in scores :: lo <= s.1 <= hi
    ensures lo * TotalWeight(scores, weights) <= WeightedSum(scores, weights) <= hi * TotalWeight(scores, weights)
    ensures TotalWeight(scores, weights) >= 0.0
    ensures scores != [] ==> TotalWeight(scores, weights) > 0.0
  {
    if scores != [] {
      WeightedSumBounds(scores[1..], weights, lo, hi);
      var w, rest := WeightOf(weights, scores[0].0), TotalWeight(scores[1..], weights);
      assert scores[0] in scores;
      ExtendBounds(lo, scores[0].1, hi, w, Contribution(weights)(scores[0]), rest, WeightedSum(scores[1..], weights));
    }
  }

  lemma MeanBetween(scores: Scores, weights: map<NodeId, real>, lo: real, hi: real)
    requires scores != [] && PositiveWeights(scores, weights)
    requires forall s | s in scores :: lo <= s.1 <= hi
    ensures lo <= WeightedMean(scores, weights) <= hi
  {
    WeightedSumBounds(scores, weights, lo, hi);
    DivBound(WeightedSum(scores, weights), hi, TotalWeight(scores, weights));
    DivBound(WeightedSum(scores, weights), lo, TotalWeight(scores, weights));
  }

  /** The reported index lies between the weakest and the strongest score, even after rounding, when
      the scores are what propagation reports: grid points of [0, 1]. */
  lemma {:induction false} IndexBetweenExtremes(scores: Scores, weights: map<NodeId, real>, weakest: NodeId,
                                                strongest: NodeId)
    requires PositiveWeights(scores, weights) && DistinctKeys(scores)
    requires forall s | s in scores :: 0.0 <= s.1 <= 1.0 && OnGrid6(s.1)
    ensures NamesExtremes(scores, weakest, strongest) ==>
              var low, high := Get(scores, weakest), Get(scores, strongest);
              && low.Some? && high.Some?
              && low.value <= Round6(Clamp(WeightedMean(scores, weights))) <= high.value
  {
    if NamesExtremes(scores, weakest, strongest) {
      var i: nat :| i < |scores| && FirstLowest(scores, i) && scores[i].0 == weakest;
      var j: nat :| j < |scores| && LastHighest(scores, j) && scores[j].0 == strongest;
      GetAt(scores, i);
      GetAt(scores, j);
      assert scores[i] in scores && scores[j] in scores;
      MeanBetween(scores, weights, scores[i].1, scores[j].1);
      Round6Between(scores[i].1, WeightedMean(scores, weights), scores[j].1);
    }
  }

  /** The weights a propagator hands over are positive, so the bounds apply to what it propagates. */
  lemma {:induction false} PropagatedScoresQualify(p: TopologicalPropagator, seeds: Values, scores: Scores)
    requires p.Valid()
    requires forall s | s in scores :: s.0 in Propagated(p.graph, seeds) && s.1 == Propagated(p.graph, seeds)[s.0]
    ensures PositiveWeights(scores, p.inboundWeightSum)
    ensures forall s | s in scores :: 0.0 <= s.1 <= 1.0 && OnGrid6(s.1)
  {
    forall s | s in scores
      ensures WeightOf(p.inboundWeightSum, s.0) > 0.0
      ensures 0.0 <= s.1 <= 1.0 && OnGrid6(s.1)
    {
      PropagatedOnGrid(p.graph, seeds, s.0);
      PositiveWeight(p, s.0);
    }
  }

  lemma PositiveWeight(p: TopologicalPropagator, n: NodeId)
    requires p.Valid()
    ensures WeightOf(p.inboundWeightSum, n) > 0.0
  {
  }

  // ----- The index does not depend on the order in which the dictionary lists the scores

  lemma {:induction false} SumConcat(a: Scores, b: Scores, f: ((NodeId, real)) -> real)
    ensures SumOf(a + b, f) == SumOf(a, f) + SumOf(b, f)
  {
    if a == [] {
      assert a + b == b;
    } else {
      assert (a + b)[0] == a[0] && (a + b)[1..] == a[1..] + b;
      SumConcat(a[1..], b, f);
    }
  }

  lemma {:induction false} SumRearranged(a: Scores, b: Scores, f: ((NodeId, real)) -> real)
    requires multiset(a) == multiset(b)
    ensures SumOf(a, f) == SumOf(b, f)
    decreases |a|
  {
    if a == [] {
      assert |multiset(b)| == 0;
    } else {
      var i := SameElementElsewhere(a, b);
      SumRearranged(a[1..], b[..i] + b[i + 1..], f);
      SumConcat(b[..i], b[i + 1..], f);
      SumConcat(b[..i], b[i..], f);
      assert b == b[..i] + b[i..] && b[i..][1..] == b[i + 1..];
    }
  }

  lemma {:induction false} MeanOrderIndependent(a: Scores, b: Scores, weights: map<NodeId, real>)
    requires multiset(a) == multiset(b)
    ensures WeightedMean(a, weights) == WeightedMean(b, weights)
  {
    SumRearranged(a, b, Contribution(weights));
    SumRearranged(a, b, Weighing(weights));
  }

  /** The weighted deviations from m, a node without an inbound weight counting once. */
  function Imbalance(scores: Scores, weights: map<NodeId, real>, m: real): real {
    if scores == [] then 0.0
    else
      (if scores[0].0 in weights then weights[scores[0].0] else 1.0) * (scores[0].1 - m)
      + Imbalance(scores[1..], weights, m)
  }

  lemma {:induction false} ImbalanceIsDifference(scores: Scores, weights: map<NodeId, real>, m: real)
    ensures Imbalance(scores, weights, m) == WeightedSum(scores, weights) - m * TotalWeight(scores, weights)
  {
    if scores != [] {
      ImbalanceIsDifference(scores[1..], weights, m);
      Balance(WeightOf(weights, scores[0].0), scores[0].1, m, TotalWeight(scores[1..], weights));
    }
  }

  lemma Balance(w: real, x: real, m: real, rest: real)
    ensures w * (x - m) == x * w - (m * (w + rest) - m * rest)
  {
  }

  /** The unrounded index is the one number from which the weighted deviations cancel. */
  lemma {:induction false} MeanBalances(scores: Scores, weights: map<NodeId, real>, m: real)
    requires scores != [] && PositiveWeights(scores, weights)
    ensures Imbalance(scores, weights, m) == 0.0 <==> m == WeightedMean(scores, weights)
  {
    ImbalanceIsDifference(scores, weights, m);
    TotalPositive(scores, weights);
    MeanUnique(m, WeightedSum(scores, weights), TotalWeight(scores, weights));
  }

  lemma {:induction false} TotalPositive(scores: Scores, weights: map<NodeId, real>)
    requires PositiveWeights(scores, weights)
    ensures TotalWeight(scores, weights) >= 0.0 && (scores != [] ==> TotalWeight(scores, weights) > 0.0)
  {
    if scores != [] {
      assert scores[0] in scores;
      TotalPositive(scores[1..], weights);
    }
  }

  lemma MeanUnique(m: real, sum: real, total: real)
    requires total > 0.0
    ensures sum - m * total == 0.0 <==> m == sum / total
  {
  }

  // ----- Inbound weights

  function EdgeWeights(edges: seq<Edge>): real {
    if edges == [] then 0.0 else edges[0].weight + EdgeWeights(edges[1..])
  }

  function InboundOf(edges: seq<Edge>): string -> real {
    n => InboundWeight(edges, n)
  }

  lemma {:induction false} SumWithout(ids: set<NodeId>, f: string -> real, g: string -> real, x: NodeId, w: real)
    requires x in ids && f(x) == g(x) + w && forall n | n in ids && n != x :: f(n) == g(n)
    ensures SumOver(ids, f) == SumOver(ids, g) + w
  {
    SumRemove(ids, f, x);
    SumRemove(ids, g, x);
    SumEqual(ids - {x}, f, g);
  }

  lemma {:induction false} SumOfZeros(ids: set<NodeId>, f: string -> real)
    requires forall n | n in ids :: f(n) == 0.0
    ensures SumOver(ids, f) == 0.0
    decreases |ids|
  {
    if ids != {} {
      var n :| n in ids;
      SumRemove(ids, f, n);
      SumOfZeros(ids - {n}, f);
    }
  }

  /** Every edge's weight counts once, at its target. */
  lemma {:induction false} InboundConserved(edges: seq<Edge>, ids: set<NodeId>)
    requires EndpointsIn(edges, ids)
    ensures SumOver(ids, InboundOf(edges)) == EdgeWeights(edges)
  {
    if edges == [] {
      SumOfZeros(ids, InboundOf([]));
    } else {
      assert edges[0] in edges;
      InboundConserved(edges[1..], ids);
      SumWithout(ids, InboundOf(edges), InboundOf(edges[1..]), edges[0].to, edges[0].weight);
    }
  }

  lemma {:induction false} NoInboundWeight(edges: seq<Edge>, n: NodeId)
    requires forall e | e in edges :: e.to != n
    ensures InboundWeight(edges, n) == 0.0
  {
    if edges != [] {
      NoInboundWeight(edges[1..], n);
    }
  }

  /** A node nothing points into weighs one. */
  lemma {:induction false} RootWeighsOne(p: TopologicalPropagator, n: NodeId)
    requires p.Valid() && n in p.graph.nodes && forall e | e in p.graph.edges :: e.to != n
    ensures n in p.inboundWeightSum && p.inboundWeightSum[n] == 1.0
  {
    forall e ensures e in p.fwdEdges || e in p.feedbackEdges ==> e in p.graph.edges {
      ForwardMembers(p.graph.edges, e);
    }
    NoInboundWeight(p.fwdEdges, n);
    NoInboundWeight(p.feedbackEdges, n);
  }
}
