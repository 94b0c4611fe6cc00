/** Health scores and trends per telemetry source. */
module HealthScorer {
  import opened RealArith
  import opened Rounding
  import opened Sequences
  import opened Regression
  import opened LeastSquares

  datatype NodeHealth = NodeHealth(nodeId: string, score: real, trend: real, sampleCount: nat)

  /** The clipped metric values, in order. */
  function ClippedSum(metrics: Dict<string, real>): real {
    if metrics == [] then 0.0 else Clamp(metrics[0].1) + ClippedSum(metrics[1..])
  }

  function ScoreOf(metrics: Dict<string, real>): real {
    if metrics == [] then 0.0 else ClippedSum(metrics) / |metrics| as real
  }

  function Round4(x: real): real {
    Quantize(x, 10000.0)
  }

  function History(histories: map<string, seq<real>>, source: string): seq<real> {
    if source in histories then histories[source] else []
  }

  class HealthScorer {
    const window: nat
    const trendWindow: int
    var histories: map<string, seq<real>>
    var health: map<string, NodeHealth>

    constructor (w: nat, t: int)
      ensures window == w && trendWindow == t && histories == map[] && health == map[]
    {
      window := w;
      trendWindow := t;
      histories := map[];
      health := map[];
    }

    /** Scores the metrics, appends to the source's bounded history, reports score and trend. */
    method Update(source: string, metrics: Dict<string, real>) returns (node: NodeHealth)
      modifies this
      ensures histories == old(histories)[source := Push(History(old(histories), source), window, ScoreOf(metrics))]
      ensures node == NodeHealth(source, Round4(ScoreOf(metrics)), Round4(ComputeTrend(histories[source], trendWindow)),
                                 |histories[source]|)
      ensures health == old(health)[source := node]
    {
      var score := Score(metrics);
      if source !in histories {
        histories := histories[source := []];
      }
      histories := histories[source := Push(histories[source], window, score)];
      var trend := ComputeTrend(histories[source], trendWindow);
      node := NodeHealth(source, Round4(score), Round4(trend), |histories[source]|);
      health := health[source := node];
    }
  }

  /** The mean of the clipped metric values. */
  method Score(metrics: Dict<string, real>) returns (score: real)
    ensures score == ScoreOf(metrics)
  {
    var sum := 0.0;
    assert metrics[0..] == metrics;
    for i := 0 to |metrics|
      invariant sum + ClippedSum(metrics[i..]) == ClippedSum(metrics)
    {
      assert metrics[i..][1..] == metrics[i + 1..];
      sum := sum + Clamp(metrics[i].1);
    }
    score := if metrics == [] then 0.0 else sum / |metrics| as real;
  }

  // ----- Runs

  datatype Sample = Sample(source: string, metrics: Dict<string, real>)

  function HistoriesAfter(window: nat, samples: seq<Sample>): map<string, seq<real>> {
    if samples == [] then map[]
    else
      var before := HistoriesAfter(window, samples[..|samples| - 1]);
      var s := samples[|samples| - 1];
      before[s.source := Push(History(before, s.source), window, ScoreOf(s.metrics))]
  }

  /** The scores one source produced, oldest first. */
  function ScoresFor(samples: seq<Sample>, source: string): seq<real> {
    if samples == [] then []
    else
      var s := samples[|samples| - 1];
      ScoresFor(samples[..|samples| - 1], source) + if s.source == source then [ScoreOf(s.metrics)] else []
  }

  lemma {:induction false} ClippedSumRange(metrics: Dict<string, real>)
    ensures 0.0 <= ClippedSum(metrics) <= |metrics| as real
  {
    if metrics != [] {
      ClippedSumRange(metrics[1..]);
    }
  }

  lemma ScoreInUnit(metrics: Dict<string, real>)
    ensures 0.0 <= ScoreOf(metrics) <= 1.0
  {
    ClippedSumRange(metrics);
    if metrics != [] {
      DivBound(ClippedSum(metrics), 1.0, |metrics| as real);
      DivBound(ClippedSum(metrics), 0.0, |metrics| as real);
    }
  }

  lemma {:induction false} ScoresInUnit(samples: seq<Sample>, source: string)
    ensures forall i | 0 <= i < |ScoresFor(samples, source)| :: 0.0 <= ScoresFor(samples, source)[i] <= 1.0
  {
    if samples != [] {
      ScoresInUnit(samples[..|samples| - 1], source);
      ScoreInUnit(samples[|samples| - 1].metrics);
    }
  }

  /** Each history holds exactly the last window scores of its own source, whatever the others do. */
  lemma {:induction false} HistoryIsLastScores(window: nat, samples: seq<Sample>, source: string)
    ensures History(HistoriesAfter(window, samples), source) == LastN(ScoresFor(samples, source), window)
  {
    if samples != [] {
      var before, s := samples[..|samples| - 1], samples[|samples| - 1];
      HistoryIsLastScores(window, before, source);
      if s.source == source {
        PushIsLastN(ScoresFor(before, source), window, ScoreOf(s.metrics));
      } else {
        assert ScoresFor(before, source) + [] == ScoresFor(before, source);
      }
    }
  }

  lemma Round4Range(lo: real, x: real, hi: real)
    requires lo <= x <= hi && OnGrid(lo, 10000.0) && OnGrid(hi, 10000.0)
    ensures lo <= Round4(x) <= hi
  {
    QuantizeIdentity(lo, 10000.0);
    QuantizeIdentity(hi, 10000.0);
    QuantizeMonotone(lo, x, 10000.0);
    QuantizeMonotone(x, hi, 10000.0);
  }

  /** In every reachable state the trend reported for a source is within [-1, 1]; it is not negative when
      the retained scores do not fall. */
  lemma {:induction false} ReportedTrend(window: nat, trendWindow: int, samples: seq<Sample>, source: string)
    ensures var trend := Round4(ComputeTrend(History(HistoriesAfter(window, samples), source), trendWindow));
            && -1.0 <= trend <= 1.0
            && (Rising(History(HistoriesAfter(window, samples), source)) ==> trend >= 0.0)
  {
    var h := History(HistoriesAfter(window, samples), source);
    HistoryIsLastScores(window, samples, source);
    ScoresInUnit(samples, source);
    TrendBound(h, trendWindow);
    Round4Range(-1.0, ComputeTrend(h, trendWindow), 1.0);
    if Rising(h) {
      TrendOfRising(h, trendWindow);
      Round4Range(0.0, ComputeTrend(h, trendWindow), 1.0);
    }
  }

  /** The trend of a source is the slope of the best line through its last scores: as many of them as both
      windows admit. */
  lemma {:induction false} TrendIsBestLine(window: nat, trendWindow: nat, samples: seq<Sample>, source: string,
                                           a: real, b: real)
    requires trendWindow >= 1
    requires var recent := LastN(LastN(ScoresFor(samples, source), window), trendWindow);
             |recent| >= 2 && IsBest(recent, a, b)
    ensures ComputeTrend(History(HistoriesAfter(window, samples), source), trendWindow) == b
  {
    var recent := LastN(LastN(ScoresFor(samples, source), window), trendWindow);
    HistoryIsLastScores(window, samples, source);
    BestExactly(recent, a, b);
  }

  /** A report is within half a unit of the fourth decimal. */
  lemma Round4Close(x: real)
    ensures Abs(Round4(x) - x) <= 0.00005
  {
    QuantizeError(x, 10000.0);
  }

  /** The deviations of the metrics, cut off at zero and one, from m. */
  function Deviations(metrics: Dict<string, real>, m: real): real {
    if metrics == [] then 0.0
    else
      var x := metrics[0].1;
      (if x <= 0.0 then 0.0 else if x >= 1.0 then 1.0 else x) - m + Deviations(metrics[1..], m)
  }

  lemma {:induction false} DeviationsTotal(metrics: Dict<string, real>, m: real)
    ensures Deviations(metrics, m) == ClippedSum(metrics) - m * |metrics| as real
  {
    if metrics != [] {
      DeviationsTotal(metrics[1..], m);
      OneLess(m, (|metrics| - 1) as real, |metrics| as real);
    }
  }

  lemma OneLess(m: real, k: real, n: real)
    requires n == k + 1.0
    ensures m * n == m * k + m
  {
  }

  /** The unrounded score is the one number around which the cut-off metrics balance. */
  lemma {:induction false} ScoreBalances(metrics: Dict<string, real>, m: real)
    requires metrics != []
    ensures Deviations(metrics, m) == 0.0 <==> m == ScoreOf(metrics)
  {
    DeviationsTotal(metrics, m);
    QuotientUnique(m, ClippedSum(metrics), |metrics| as real);
  }

  lemma QuotientUnique(m: real, total: real, n: real)
    requires n > 0.0
    ensures total - m * n == 0.0 <==> m == total / n
  {
  }
}
