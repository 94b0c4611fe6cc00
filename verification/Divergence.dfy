/** Recency-weighted divergence between an actual and a twin state. */
module Divergence {
  import opened RealArith
  import opened Rounding
  import opened Sequences
  import opened SparseVectors
  import opened Regression
  import opened LeastSquares

  /** Snapshot contents; booleans are numbers to the program. */
  datatype Json = Number(value: real) | Flag(on: bool) | Text(text: string) | Object(fields: map<string, Json>) | Other

  type Snapshot = map<string, Json>

  predicate IsNumeric(j: Json) {
    j.Number? || j.Flag?
  }

  function Numeric(j: Json): real
    requires IsNumeric(j)
  {
    match j
    case Number(v) => v
    case Flag(on) => if on then 1.0 else 0.0
  }

  /** The numeric top-level entries. */
  function Floats(s: Snapshot): Vector {
    map k | k in s && IsNumeric(s[k]) :: Numeric(s[k])
  }

  function Gap(a: Vector, b: Vector): string -> real {
    k => Abs(At(a, k) - At(b, k))
  }

  /** The mean absolute difference over the shared numeric keys, rounded; zero when none is shared. */
  ghost function PointDivergence(actual: Vector, twin: Vector): real {
    var shared := actual.Keys * twin.Keys;
    Round6(if shared == {} then 0.0 else SumOver(shared, Gap(actual, twin)) / |shared| as real)
  }

  datatype DivergenceSample = DivergenceSample(cycle: int, actualValues: Vector, twinValues: Vector,
      pointDivergence: real)

  datatype DivergenceMetric = DivergenceMetric(forkId: string, samples: seq<DivergenceSample>, weightedDivergence: real,
                                               decay: real, trend: real)

  type SampleLog = map<string, seq<DivergenceSample>>

  function SamplesOf(log: SampleLog, forkId: string): seq<DivergenceSample> {
    if forkId in log then log[forkId] else []
  }

  function Points(samples: seq<DivergenceSample>): (ps: seq<real>)
    ensures |ps| == |samples| && forall i | 0 <= i < |ps| :: ps[i] == samples[i].pointDivergence
  {
    seq(|samples|, i requires 0 <= i < |samples| => samples[i].pointDivergence)
  }

  function Power(base: real, k: nat): real {
    if k == 0 then 1.0 else base * Power(base, k - 1)
  }

  /** The points weighted by decay^(n - k), the most recent with weight one. */
  function WeightedSum(decay: real, points: seq<real>): real {
    if points == [] then 0.0 else Power(decay, |points| - 1) * points[0] + WeightedSum(decay, points[1..])
  }

  function WeightSum(decay: real, n: nat): real {
    if n == 0 then 0.0 else Power(decay, n - 1) + WeightSum(decay, n - 1)
  }

  function WeightedDivergence(decay: real, points: seq<real>): real {
    var total := WeightSum(decay, |points|);
    Round6(if total > 0.0 then WeightedSum(decay, points) / total else 0.0)
  }

  function TrendOf(points: seq<real>): real {
    Round6(if |points| < 2 then 0.0 else ComputeSlope(points))
  }

  function MetricOf(forkId: string, samples: seq<DivergenceSample>, decay: real): DivergenceMetric {
    if samples == [] then DivergenceMetric(forkId, [], 0.0, decay, 0.0)
    else DivergenceMetric(forkId, samples, WeightedDivergence(decay, Points(samples)), decay, TrendOf(Points(samples)))
  }

  ghost function SampleFor(actual: Snapshot, twin: Snapshot, cycle: int): DivergenceSample {
    DivergenceSample(cycle, Floats(actual), Floats(twin), PointDivergence(Floats(actual), Floats(twin)))
  }

  class DivergenceCalculator {
    const decay: real
    const maxSamples: nat
    var samples: SampleLog

    constructor (d: real, m: nat)
      ensures decay == d && maxSamples == m && samples == map[]
    {
      decay := d;
      maxSamples := m;
      samples := map[];
    }

    method Sample(forkId: string, actual: Snapshot, twin: Snapshot, cycle: int) returns (s: DivergenceSample)
      modifies this
      ensures s == SampleFor(actual, twin, cycle)
      ensures samples == old(samples)[forkId := Push(SamplesOf(old(samples), forkId), maxSamples, s)]
    {
      var actualFloats, twinFloats := Floats(actual), Floats(twin);
      var shared := actualFloats.Keys * twinFloats.Keys;
      var pointDiv := 0.0;
      if shared != {} {
        var sum := SumGaps(shared, actualFloats, twinFloats);
        pointDiv := sum / |shared| as real;
      }
      s := DivergenceSample(cycle, actualFloats, twinFloats, Round6(pointDiv));
      if forkId !in samples {
        samples := samples[forkId := []];
      }
      samples := samples[forkId := Push(samples[forkId], maxSamples, s)];
    }

    method Compute(forkId: string) returns (metric: DivergenceMetric)
      ensures metric == MetricOf(forkId, SamplesOf(samples, forkId), decay)
    {
      var found := SamplesOf(samples, forkId);
      if found == [] {
        return DivergenceMetric(forkId, [], 0.0, decay, 0.0);
      }
      var points := Points(found);
      var weighted, weightSum := WeighPoints(decay, points);
      var d := if weightSum > 0.0 then weighted / weightSum else 0.0;
      metric := DivergenceMetric(forkId, found, Round6(d), decay, TrendOf(points));
    }

    method Clear(forkId: string)
      modifies this
      ensures samples == old(samples) - {forkId}
    {
      samples := samples - {forkId};
    }
  }

  method SumGaps(keys: set<string>, a: Vector, b: Vector) returns (sum: real)
    requires keys <= a.Keys && keys <= b.Keys
    ensures sum == SumOver(keys, Gap(a, b))
  {
    sum := 0.0;
    var todo := keys;
    while todo != {}
      invariant todo <= keys && sum + SumOver(todo, Gap(a, b)) == SumOver(keys, Gap(a, b))
      decreases todo
    {
      var k :| k in todo;
      SumRemove(todo, Gap(a, b), k);
      sum := sum + Abs(a[k] - b[k]);
      todo := todo - {k};
    }
  }

  /** Accumulates the weighted points and the weights, oldest first. */
  method WeighPoints(decay: real, points: seq<real>) returns (weighted: real, weightSum: real)
    ensures weighted == WeightedSum(decay, points) && weightSum == WeightSum(decay, |points|)
  {
    weighted, weightSum := 0.0, 0.0;
    assert points[0..] == points;
    for i := 0 to |points|
      invariant weighted + WeightedSum(decay, points[i..]) == WeightedSum(decay, points)
      invariant weightSum + WeightSum(decay, |points| - i) == WeightSum(decay, |points|)
    {
      assert points[i..][0] == points[i] && points[i..][1..] == points[i + 1..];
      var weight := Power(decay, |points| - i - 1);
      weighted := weighted + weight * points[i];
      weightSum := weightSum + weight;
    }
  }

  // ----- Constant divergence

  lemma {:induction false} PowerPositive(base: real, k: nat)
    requires base > 0.0
    ensures Power(base, k) > 0.0
  {
    if k > 0 {
      PowerPositive(base, k - 1);
      MulPos(base, Power(base, k - 1));
    }
  }

  lemma {:induction false} WeightsPositive(decay: real, n: nat)
    requires decay > 0.0 && n >= 1
    ensures WeightSum(decay, n) > 0.0
  {
    PowerPositive(decay, n - 1);
    if n > 1 {
      WeightsPositive(decay, n - 1);
    }
  }

  predicate BetweenTimes(lo: real, sum: real, hi: real, weight: real) {
    lo * weight <= sum <= hi * weight
  }

  lemma ExtendBounds(lo: real, x: real, hi: real, p: real, sum: real, weight: real, sums: real, weights: real)
    requires lo <= x <= hi && p >= 0.0 && BetweenTimes(lo, sum, hi, weight)
    requires sums == p * x + sum && weights == p + weight
    ensures BetweenTimes(lo, sums, hi, weights)
  {
    MulMono(lo, x, p);
    MulMono(x, hi, p);
    assert lo * weights == lo * p + lo * weight;
    assert hi * weights == hi * p + hi * weight;
  }

  lemma {:induction false} WeightedBounds(decay: real, points: seq<real>, lo: real, hi: real)
    requires decay > 0.0 && forall i | 0 <= i < |points| :: lo <= points[i] <= hi
    ensures BetweenTimes(lo, WeightedSum(decay, points), hi, WeightSum(decay, |points|))
  {
    if points != [] {
      var p, rest := Power(decay, |points| - 1), points[1..];
      PowerPositive(decay, |points| - 1);
      WeightedBounds(decay, rest, lo, hi);
      ExtendBounds(lo, points[0], hi, p, WeightedSum(decay, rest), WeightSum(decay, |rest|),
          WeightedSum(decay, points), WeightSum(decay, |points|));
    }
  }

  /** The reported divergence lies between any grid bounds of the points, such as the least and the greatest
      of them, also after rounding. */
  lemma {:induction false} DivergenceBetween(decay: real, points: seq<real>, lo: real, hi: real)
    requires decay > 0.0 && points != [] && OnGrid6(lo) && OnGrid6(hi)
    requires forall i | 0 <= i < |points| :: lo <= points[i] <= hi
    ensures lo <= WeightedDivergence(decay, points) <= hi
  {
    var sum, total := WeightedSum(decay, points), WeightSum(decay, |points|);
    WeightedBounds(decay, points, lo, hi);
    WeightsPositive(decay, |points|);
    DivBound(sum, hi, total);
    DivBound(sum, lo, total);
    Round6Between(lo, sum / total, hi);
  }

  /** A constant point divergence is reported as it is, whatever the decay and the number of samples, and
      shows no trend. */
  lemma {:induction false} ConstantDivergence(decay: real, points: seq<real>, d: real)
    requires decay > 0.0 && points != [] && OnGrid6(d)
    requires forall i | 0 <= i < |points| :: points[i] == d
    ensures WeightedDivergence(decay, points) == d && TrendOf(points) == 0.0
  {
    DivergenceBetween(decay, points, d, d);
    if |points| >= 2 {
      SlopeOfConstant(points, d);
    }
    UnitOnGrid();
    Round6Identity(0.0);
  }

  // ----- The newest point leads

  lemma AgeStep(decay: real, p: real, p': real, x: real, sum: real, last: real)
    requires p' == decay * p
    ensures p' * x + (decay * sum + last) == decay * (p * x + sum) + last
  {
    assert p' * x == decay * (p * x);
  }

  /** Taking up one more point lets every older one count less by the decay, and the new one in full. */
  lemma {:induction false} NewestInFull(decay: real, points: seq<real>, x: real)
    ensures WeightedSum(decay, points + [x]) == decay * WeightedSum(decay, points) + x
    ensures WeightSum(decay, |points| + 1) == decay * WeightSum(decay, |points|) + 1.0
  {
    WeightsAge(decay, |points|);
    PointsAge(decay, points, x);
  }

  lemma {:induction false} PointsAge(decay: real, points: seq<real>, x: real)
    ensures WeightedSum(decay, points + [x]) == decay * WeightedSum(decay, points) + x
  {
    var more := points + [x];
    if points == [] {
      assert more[1..] == [] && more[0] == x;
    } else {
      var rest, n := points[1..], |points|;
      assert more[0] == points[0] && more[1..] == rest + [x];
      PointsAge(decay, rest, x);
      AgeStep(decay, Power(decay, n - 1), Power(decay, n), points[0], WeightedSum(decay, rest), x);
    }
  }

  lemma {:induction false} WeightsAge(decay: real, n: nat)
    ensures WeightSum(decay, n + 1) == decay * WeightSum(decay, n) + 1.0
  {
    if n > 0 {
      WeightsAge(decay, n - 1);
      AgeStep(decay, Power(decay, n - 1), Power(decay, n), 1.0, WeightSum(decay, n - 1), 1.0);
    }
  }

  /** Snapshots whose shared numeric values all differ by d diverge by |d|, rounded. */
  lemma {:induction false} UniformGap(actual: Vector, twin: Vector, d: real)
    requires actual.Keys * twin.Keys != {}
    requires forall k | k in actual && k in twin :: actual[k] - twin[k] == d
    ensures PointDivergence(actual, twin) == Round6(Abs(d))
  {
    var shared := actual.Keys * twin.Keys;
    forall k | k in shared ensures Gap(actual, twin)(k) == Abs(d) {
      assert At(actual, k) - At(twin, k) == d;
    }
    SumOfConstant(shared, Gap(actual, twin), Abs(d));
    ConstantMean(Abs(d), |shared| as real, SumOver(shared, Gap(actual, twin)));
  }

  lemma ConstantMean(c: real, n: real, total: real)
    requires n > 0.0 && total == c * n
    ensures total / n == c
  {
  }

  lemma {:induction false} SumOfConstant(keys: set<string>, f: string -> real, c: real)
    requires forall k | k in keys :: f(k) == c
    ensures SumOver(keys, f) == c * |keys| as real
    decreases |keys|
  {
    if keys != {} {
      var k :| k in keys;
      SumRemove(keys, f, k);
      SumOfConstant(keys - {k}, f, c);
      OneMore(c, |keys - {k}| as real);
    }
  }

  lemma OneMore(c: real, n: real)
    ensures c + c * n == c * (n + 1.0)
  {
  }

  /** The reported trend is the rounded slope of the best line through the points. */
  lemma {:induction false} TrendIsBestLine(points: seq<real>, a: real, b: real)
    requires |points| >= 2 && IsBest(points, a, b)
    ensures TrendOf(points) == Round6(b)
  {
    BestExactly(points, a, b);
  }

  function AsNumber(j: Json): Json {
    if j.Flag? then Number(if j.on then 1.0 else 0.0) else j
  }

  /** A flag is compared as the number one or zero; what is no number is not compared at all. */
  lemma {:induction false} FlagsAreNumbers(s: Snapshot)
    ensures Floats(map k | k in s :: AsNumber(s[k])) == Floats(s)
    ensures forall k | k in s && s[k].Number? :: k in Floats(s) && Floats(s)[k] == s[k].value
    ensures forall k | k in Floats(s) :: k in s && (s[k].Number? || s[k].Flag?)
  {
    var t := map k | k in s :: AsNumber(s[k]);
    assert Floats(t).Keys == Floats(s).Keys;
  }
}
