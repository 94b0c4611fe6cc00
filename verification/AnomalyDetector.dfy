/** Z-score anomaly detection over rolling windows, one per source and field. */
module AnomalyDetector {
  import opened RealArith
  import opened Rounding
  import opened Sequences

  datatype Severity = Warn | Critical

  datatype Thresholds = Thresholds(warn: real, critical: real, minSamples: int)

  datatype AnomalyEvent = AnomalyEvent(source: string, field: string, observed: real, mean: real, severity: Severity)

  type Window = seq<real>

  type Windows = map<(string, string), Window>

  function Total(xs: seq<real>): real {
    if xs == [] then 0.0 else Total(xs[..|xs| - 1]) + xs[|xs| - 1]
  }

  function Mean(xs: seq<real>): real
    requires xs != []
  {
    Total(xs) / |xs| as real
  }

  function SquaredDeviations(xs: seq<real>, mean: real): real {
    if xs == [] then 0.0
    else SquaredDeviations(xs[..|xs| - 1], mean) + Square(xs[|xs| - 1] - mean)
  }

  function Square(x: real): real {
    x * x
  }

  /** The sample variance, the square of the standard deviation. */
  function Variance(xs: seq<real>): real
    requires |xs| >= 2
  {
    SquaredDeviations(xs, Mean(xs)) / (|xs| - 1) as real
  }

  /** |deviation| / std > threshold, without the root: for std > 0 both sides may be squared unless the
      threshold is negative, when the comparison always holds. */
  predicate Exceeds(deviation: real, variance: real, threshold: real) {
    threshold < 0.0 || Square(deviation) > Square(threshold) * variance
  }

  /** What a window says about its own newest value. */
  function SeverityOf(window: Window, t: Thresholds): Option<Severity> {
    if |window| < t.minSamples || |window| < 3 then None
    else
      var prior, value := window[..|window| - 1], window[|window| - 1];
      var variance := Variance(prior);
      if variance == 0.0 then None
      else if Exceeds(value - Mean(prior), variance, t.critical) then Some(Critical)
      else if Exceeds(value - Mean(prior), variance, t.warn) then Some(Warn)
      else None
  }

  function WindowOf(windows: Windows, source: string, field: string): Window {
    if (source, field) in windows then windows[(source, field)] else []
  }

  function Observed(windows: Windows, source: string, field: string, value: real, size: nat): Windows {
    windows[(source, field) := Push(WindowOf(windows, source, field), size, value)]
  }

  function ObservedAll(windows: Windows, source: string, metrics: Dict<string, real>, size: nat): Windows
    decreases metrics
  {
    if metrics == [] then windows
    else ObservedAll(Observed(windows, source, metrics[0].0, metrics[0].1, size), source, metrics[1..], size)
  }

  function EventFor(source: string, field: string, window: Window, severity: Severity): AnomalyEvent
    requires |window| >= 3
  {
    AnomalyEvent(source, field, Quantize(window[|window| - 1], 10000.0),
        Quantize(Mean(window[..|window| - 1]), 10000.0), severity)
  }

  /** The event, if any, that one observed value causes. */
  function EventAt(windows: Windows, source: string, field: string, value: real, size: nat,
          t: Thresholds): seq<AnomalyEvent> {
    var window := Observed(windows, source, field, value, size)[(source, field)];
    var severity := SeverityOf(window, t);
    if severity.Some? then [EventFor(source, field, window, severity.value)] else []
  }

  /** The events of one update, in the order of its metrics. */
  function EventsOf(windows: Windows, source: string, metrics: Dict<string, real>, size: nat,
          t: Thresholds): seq<AnomalyEvent>
    decreases metrics
  {
    if metrics == [] then []
    else
      EventAt(windows, source, metrics[0].0, metrics[0].1, size, t)
      + EventsOf(Observed(windows, source, metrics[0].0, metrics[0].1, size), source, metrics[1..], size, t)
  }

  lemma EventsStep(windows: Windows, source: string, metrics: Dict<string, real>, size: nat, t: Thresholds)
    requires metrics != []
    ensures var next := Observed(windows, source, metrics[0].0, metrics[0].1, size);
            && ObservedAll(windows, source, metrics, size) == ObservedAll(next, source, metrics[1..], size)
            && EventsOf(windows, source, metrics, size, t)
               == EventAt(windows, source, metrics[0].0, metrics[0].1, size, t)
                   + EventsOf(next, source, metrics[1..], size, t)
  {
  }

  class AnomalyDetector {
    const thresholds: Thresholds
    const size: nat
    var windows: Windows

    constructor (t: Thresholds, window: nat)
      ensures thresholds == t && size == window && windows == map[]
    {
      thresholds := t;
      size := window;
      windows := map[];
    }

    method Update(source: string, metrics: Dict<string, real>) returns (anomalies: seq<AnomalyEvent>)
      modifies this
      ensures windows == ObservedAll(old(windows), source, metrics, size)
      ensures anomalies == EventsOf(old(windows), source, metrics, size, thresholds)
    {
      anomalies := [];
      assert metrics[0..] == metrics;
      for i := 0 to |metrics|
        invariant ObservedAll(windows, source, metrics[i..], size) == ObservedAll(old(windows), source, metrics, size)
        invariant anomalies + EventsOf(windows, source, metrics[i..], size, thresholds)
               == EventsOf(old(windows), source, metrics, size, thresholds)
      {
        EventsStep(windows, source, metrics[i..], size, thresholds);
        assert metrics[i..][0] == metrics[i] && metrics[i..][1..] == metrics[i + 1..];
        ghost var before := anomalies;
        var found := Observe(source, metrics[i].0, metrics[i].1);
        anomalies := anomalies + found;
        assert before + (found + EventsOf(windows, source, metrics[i + 1..], size, thresholds))
            == anomalies + EventsOf(windows, source, metrics[i + 1..], size, thresholds);
      }
      assert anomalies + [] == anomalies;
    }

    /** Takes one value in and judges it against the values before it. */
    method Observe(source: string, field: string, value: real) returns (found: seq<AnomalyEvent>)
      modifies this
      ensures windows == Observed(old(windows), source, field, value, size)
      ensures found == EventAt(old(windows), source, field, value, size, thresholds)
    {
      var key := (source, field);
      if key !in windows {
        windows := windows[key := []];
      }
      windows := windows[key := Push(windows[key], size, value)];
      var severity := SeverityOf(windows[key], thresholds);
      found := [];
      if severity.Some? {
        found := [EventFor(source, field, windows[key], severity.value)];
      }
    }
  }

  // ----- Windows over runs

  datatype Sample = Sample(source: string, metrics: Dict<string, real>)

  function WindowsAfter(samples: seq<Sample>, size: nat): Windows {
    if samples == [] then map[]
    else
      var n := |samples| - 1;
      ObservedAll(WindowsAfter(samples[..n], size), samples[n].source, samples[n].metrics, size)
  }

  /** The values a dictionary of metrics gives a field. */
  function ValuesFor(metrics: Dict<string, real>, field: string): seq<real> {
    if metrics == [] then []
    else (if metrics[0].0 == field then [metrics[0].1] else []) + ValuesFor(metrics[1..], field)
  }

  /** The stream of one source and field, oldest first. */
  function Stream(samples: seq<Sample>, source: string, field: string): seq<real> {
    if samples == [] then []
    else
      var n := |samples| - 1;
      Stream(samples[..n], source, field)
      + if samples[n].source == source then ValuesFor(samples[n].metrics, field) else []
  }

  lemma {:induction false} ObservedWindow(windows: Windows, src: string, metrics: Dict<string, real>, size: nat,
                                          source: string, field: string, stream: seq<real>)
    requires WindowOf(windows, source, field) == LastN(stream, size)
    ensures WindowOf(ObservedAll(windows, src, metrics, size), source, field)
         == LastN(stream + (if src == source then ValuesFor(metrics, field) else []), size)
    decreases metrics
  {
    if metrics == [] {
      assert stream + [] == stream;
    } else {
      var next := Observed(windows, src, metrics[0].0, metrics[0].1, size);
      if src == source && metrics[0].0 == field {
        PushIsLastN(stream, size, metrics[0].1);
        ObservedWindow(next, src, metrics[1..], size, source, field, stream + [metrics[0].1]);
        assert stream + [metrics[0].1] + ValuesFor(metrics[1..], field)
            == stream + ([metrics[0].1] + ValuesFor(metrics[1..], field));
      } else {
        ObservedWindow(next, src, metrics[1..], size, source, field, stream);
        if src == source {
          assert [] + ValuesFor(metrics[1..], field) == ValuesFor(metrics[1..], field);
        }
      }
    }
  }

  /** Each window always holds exactly the last values of its own stream, independently of other keys. */
  lemma {:induction false} WindowIsLastValues(samples: seq<Sample>, size: nat, source: string, field: string)
    ensures WindowOf(WindowsAfter(samples, size), source, field) == LastN(Stream(samples, source, field), size)
  {
    if samples != [] {
      var n := |samples| - 1;
      WindowIsLastValues(samples[..n], size, source, field);
      ObservedWindow(WindowsAfter(samples[..n], size), samples[n].source, samples[n].metrics, size, source, field,
                     Stream(samples[..n], source, field));
    }
  }

  // ----- Affine invariance

  function Affine(a: real, b: real, x: real): real {
    a * x + b
  }

  function AffineAll(a: real, b: real, xs: seq<real>): (ys: seq<real>)
    ensures |ys| == |xs| && forall i | 0 <= i < |ys| :: ys[i] == Affine(a, b, xs[i])
  {
    seq(|xs|, i requires 0 <= i < |xs| => Affine(a, b, xs[i]))
  }

  lemma TotalStep(a: real, b: real, total: real, x: real, n: real)
    ensures a * total + b * n + Affine(a, b, x) == a * (total + x) + b * (n + 1.0)
  {
  }

  lemma {:induction false} AffineTotal(a: real, b: real, xs: seq<real>)
    ensures Total(AffineAll(a, b, xs)) == a * Total(xs) + b * |xs| as real
  {
    if xs != [] {
      var n := |xs| - 1;
      AffineTotal(a, b, xs[..n]);
      assert AffineAll(a, b, xs)[..n] == AffineAll(a, b, xs[..n]);
      TotalStep(a, b, Total(xs[..n]), xs[n], n as real);
    }
  }

  lemma MeanStep(a: real, b: real, total: real, n: real)
    requires n > 0.0
    ensures (a * total + b * n) / n == Affine(a, b, total / n)
  {
    assert (a * (total / n) + b) * n == a * total + b * n;
  }

  lemma AffineMean(a: real, b: real, xs: seq<real>)
    requires xs != []
    ensures Mean(AffineAll(a, b, xs)) == Affine(a, b, Mean(xs))
  {
    var n := |xs| as real;
    AffineTotal(a, b, xs);
    MeanStep(a, b, Total(xs), n);
    assert Total(AffineAll(a, b, xs)) / n == (a * Total(xs) + b * n) / n;
  }

  lemma SquareOfAffine(a: real, b: real, x: real, m: real)
    ensures Square(Affine(a, b, x) - Affine(a, b, m)) == Square(a) * Square(x - m)
  {
    assert Affine(a, b, x) - Affine(a, b, m) == a * (x - m);
  }

  lemma Factor(c: real, x: real, y: real)
    ensures c * x + c * y == c * (x + y)
  {
  }

  lemma {:induction false} AffineDeviations(a: real, b: real, xs: seq<real>, m: real)
    ensures SquaredDeviations(AffineAll(a, b, xs), Affine(a, b, m)) == Square(a) * SquaredDeviations(xs, m)
  {
    if xs != [] {
      var n := |xs| - 1;
      AffineDeviations(a, b, xs[..n], m);
      assert AffineAll(a, b, xs)[..n] == AffineAll(a, b, xs[..n]);
      SquareOfAffine(a, b, xs[n], m);
      Factor(Square(a), SquaredDeviations(xs[..n], m), Square(xs[n] - m));
    }
  }

  lemma FactorQuotient(c: real, x: real, d: real, scaled: real)
    requires d > 0.0 && scaled == c * x
    ensures scaled / d == c * (x / d)
  {
  }

  lemma AffineVariance(a: real, b: real, xs: seq<real>)
    requires |xs| >= 2
    ensures Variance(AffineAll(a, b, xs)) == Square(a) * Variance(xs)
  {
    AffineMean(a, b, xs);
    AffineDeviations(a, b, xs, Mean(xs));
    FactorQuotient(Square(a), SquaredDeviations(xs, Mean(xs)), (|xs| - 1) as real,
                   SquaredDeviations(AffineAll(a, b, xs), Affine(a, b, Mean(xs))));
  }

  /** Scaling deviation and standard deviation alike does not change the comparison. */
  lemma AffineExceeds(a: real, deviation: real, deviation': real, variance: real, variance': real, threshold: real)
    requires a != 0.0 && Square(deviation') == Square(a) * Square(deviation) && variance' == Square(a) * variance
    ensures Exceeds(deviation', variance', threshold) <==> Exceeds(deviation, variance, threshold)
  {
    var c := Square(a);
    NonZeroSquare(a);
    ScaledOrder(c, Square(deviation), Square(threshold) * variance);
    Regroup(Square(threshold), c, variance);
  }

  lemma NonZeroSquare(a: real)
    requires a != 0.0
    ensures Square(a) > 0.0
  {
    if a > 0.0 {
      PositiveProduct(a, a, Square(a));
    } else {
      PositiveProduct(-a, -a, Square(a));
    }
  }

  lemma PositiveProduct(x: real, y: real, p: real)
    requires x > 0.0 && y > 0.0 && p == x * y
    ensures p > 0.0
  {
  }

  lemma Regroup(x: real, c: real, y: real)
    ensures x * (c * y) == c * (x * y)
  {
  }

  lemma ScaledOrder(c: real, x: real, y: real)
    requires c > 0.0
    ensures c * x > c * y <==> x > y
    ensures c * x == 0.0 <==> x == 0.0
  {
    if x > y {
      MulPos(c, x - y);
      assert c * (x - y) == c * x - c * y;
    } else {
      MulNonNeg(c, y - x);
      assert c * (y - x) == c * y - c * x;
    }
    if x != 0.0 {
      if x > 0.0 {
        MulPos(c, x);
      } else {
        MulPos(c, -x);
        assert c * -x == -(c * x);
      }
    }
  }

  /** A window of a x + b, a not zero, is judged like the window of x. */
  lemma {:induction false} SeverityAffineInvariant(a: real, b: real, window: Window, t: Thresholds)
    requires a != 0.0
    ensures SeverityOf(AffineAll(a, b, window), t) == SeverityOf(window, t)
  {
    if |window| >= 3 {
      var n := |window| - 1;
      var prior, value := window[..n], window[n];
      assert AffineAll(a, b, window)[..n] == AffineAll(a, b, prior);
      AffineMean(a, b, prior);
      AffineVariance(a, b, prior);
      SquareOfAffine(a, b, value, Mean(prior));
      NonZeroSquare(a);
      ScaledOrder(Square(a), Variance(prior), 0.0);
      var deviation, deviation' := value - Mean(prior), Affine(a, b, value) - Affine(a, b, Mean(prior));
      AffineExceeds(a, deviation, deviation', Variance(prior), Square(a) * Variance(prior), t.critical);
      AffineExceeds(a, deviation, deviation', Variance(prior), Square(a) * Variance(prior), t.warn);
    }
  }

  /** One field of one source is fed a x + b instead of x. */
  datatype Change = Change(a: real, b: real, source: string, field: string) {
    predicate Concerns(s: string, f: string) {
      s == source && f == field
    }

    function Value(s: string, f: string, x: real): real {
      if Concerns(s, f) then Affine(a, b, x) else x
    }

    function Values(s: string, f: string, xs: seq<real>): seq<real> {
      if Concerns(s, f) then AffineAll(a, b, xs) else xs
    }

    function Metrics(s: string, metrics: Dict<string, real>): (r: Dict<string, real>)
      ensures |r| == |metrics|
      ensures forall i | 0 <= i < |r| :: r[i] == (metrics[i].0, Value(s, metrics[i].0, metrics[i].1))
    {
      seq(|metrics|, i requires 0 <= i < |metrics| => (metrics[i].0, Value(s, metrics[i].0, metrics[i].1)))
    }

    function Samples(samples: seq<Sample>): (r: seq<Sample>)
      ensures |r| == |samples|
      ensures forall i | 0 <= i < |r| ::
                r[i] == Sample(samples[i].source, Metrics(samples[i].source, samples[i].metrics))
    {
      seq(|samples|, i requires 0 <= i < |samples| =>
        Sample(samples[i].source, Metrics(samples[i].source, samples[i].metrics)))
    }
  }

  /** The windows of the two runs: the changed field's is transformed, all others are equal. */
  ghost predicate Related(c: Change, windows: Windows, windows': Windows) {
    forall s, f :: WindowOf(windows', s, f) == c.Values(s, f, WindowOf(windows, s, f))
  }

  /** What an event says about whom, apart from the numbers. */
  function Labels(events: seq<AnomalyEvent>): (r: seq<(string, string, Severity)>)
    ensures |r| == |events|
    ensures forall i | 0 <= i < |r| :: r[i] == (events[i].source, events[i].field, events[i].severity)
  {
    seq(|events|, i requires 0 <= i < |events| => (events[i].source, events[i].field, events[i].severity))
  }

  lemma PushRelated(c: Change, s: string, f: string, window: Window, x: real, size: nat)
    ensures Push(c.Values(s, f, window), size, c.Value(s, f, x)) == c.Values(s, f, Push(window, size, x))
  {
    if c.Concerns(s, f) {
      assert AffineAll(c.a, c.b, window) + [Affine(c.a, c.b, x)] == AffineAll(c.a, c.b, window + [x]);
    }
  }

  lemma ObserveRelated(c: Change, windows: Windows, windows': Windows, s: string, f: string, x: real,
          size: nat, t: Thresholds)
    requires c.a != 0.0 && Related(c, windows, windows')
    ensures Related(c, Observed(windows, s, f, x, size), Observed(windows', s, f, c.Value(s, f, x), size))
    ensures Labels(EventAt(windows', s, f, c.Value(s, f, x), size, t)) == Labels(EventAt(windows, s, f, x, size, t))
  {
    var window := WindowOf(windows, s, f);
    assert WindowOf(windows', s, f) == c.Values(s, f, window);
    PushRelated(c, s, f, window, x, size);
    var next, next' := Observed(windows, s, f, x, size), Observed(windows', s, f, c.Value(s, f, x), size);
    forall s', f'
      ensures WindowOf(next', s', f') == c.Values(s', f', WindowOf(next, s', f'))
    {
      if (s', f') != (s, f) {
        assert WindowOf(next', s', f') == WindowOf(windows', s', f')
            && WindowOf(next, s', f') == WindowOf(windows, s', f');
      }
    }
    SeverityAffineInvariant(c.a, c.b, Push(window, size, x), t);
  }

  lemma {:induction false} UpdateRelated(c: Change, windows: Windows, windows': Windows, s: string,
          metrics: Dict<string, real>,
                                         size: nat, t: Thresholds)
    requires c.a != 0.0 && Related(c, windows, windows')
    ensures Related(c, ObservedAll(windows, s, metrics, size), ObservedAll(windows', s, c.Metrics(s, metrics), size))
    ensures Labels(EventsOf(windows', s, c.Metrics(s, metrics), size, t))
         == Labels(EventsOf(windows, s, metrics, size, t))
    decreases metrics
  {
    if metrics != [] {
      var (f, x) := metrics[0];
      ObserveRelated(c, windows, windows', s, f, x, size, t);
      assert c.Metrics(s, metrics)[1..] == c.Metrics(s, metrics[1..]);
      var next, next' := Observed(windows, s, f, x, size), Observed(windows', s, f, c.Value(s, f, x), size);
      UpdateRelated(c, next, next', s, metrics[1..], size, t);
      EventsStep(windows, s, metrics, size, t);
      EventsStep(windows', s, c.Metrics(s, metrics), size, t);
      LabelsConcat(EventAt(windows, s, f, x, size, t), EventsOf(next, s, metrics[1..], size, t));
      LabelsConcat(EventAt(windows', s, f, c.Value(s, f, x), size, t),
          EventsOf(next', s, c.Metrics(s, metrics[1..]), size, t));
    }
  }

  lemma LabelsConcat(x: seq<AnomalyEvent>, y: seq<AnomalyEvent>)
    ensures Labels(x + y) == Labels(x) + Labels(y)
  {
  }

  /** The events of the update at one step of a run. */
  function EventsAtStep(samples: seq<Sample>, step: nat, size: nat, t: Thresholds): seq<AnomalyEvent>
    requires step < |samples|
  {
    EventsOf(WindowsAfter(samples[..step], size), samples[step].source, samples[step].metrics, size, t)
  }

  lemma {:induction false} RunsRelated(c: Change, samples: seq<Sample>, size: nat, t: Thresholds)
    requires c.a != 0.0
    ensures Related(c, WindowsAfter(samples, size), WindowsAfter(c.Samples(samples), size))
  {
    if samples == [] {
      assert c.Samples([]) == [];
    } else {
      var n := |samples| - 1;
      RunsRelated(c, samples[..n], size, t);
      assert c.Samples(samples)[..n] == c.Samples(samples[..n]);
      UpdateRelated(c, WindowsAfter(samples[..n], size), WindowsAfter(c.Samples(samples[..n]), size),
                    samples[n].source, samples[n].metrics, size, t);
    }
  }

  /** Affine invariance: feeding a x + b, a not zero, instead of x to one field leaves every update's list
      of severities, with their sources and fields, exactly as it was. */
  lemma {:induction false} AffineInvariance(c: Change, samples: seq<Sample>, step: nat, size: nat, t: Thresholds)
    requires c.a != 0.0 && step < |samples|
    ensures Labels(EventsAtStep(c.Samples(samples), step, size, t)) == Labels(EventsAtStep(samples, step, size, t))
  {
    assert c.Samples(samples)[..step] == c.Samples(samples[..step]);
    RunsRelated(c, samples[..step], size, t);
    UpdateRelated(c, WindowsAfter(samples[..step], size), WindowsAfter(c.Samples(samples[..step]), size),
                  samples[step].source, samples[step].metrics, size, t);
  }

  // ----- The z-score

  lemma RootComparison(deviation: real, std: real, threshold: real)
    requires std > 0.0
    ensures Exceeds(deviation, Square(std), threshold) <==> Abs(deviation) / std > threshold
  {
    var size := Abs(deviation);
    assert Square(deviation) == Square(size);
    DivBound(size, threshold, std);
    DivBound(size, 0.0, std);
    if threshold >= 0.0 {
      MulNonNeg(threshold, std);
      SquaredProduct(threshold, std);
      SquareOrder(size, threshold * std);
    }
  }

  lemma SquaredProduct(x: real, y: real)
    ensures Square(x * y) == Square(x) * Square(y)
  {
  }

  lemma SquareOrder(x: real, y: real)
    requires x >= 0.0 && y >= 0.0
    ensures Square(x) > Square(y) <==> x > y
  {
    if x > y {
      MulPos(x - y, x + y);
      assert (x - y) * (x + y) == Square(x) - Square(y);
    } else {
      MulNonNeg(y - x, x + y);
      assert (y - x) * (x + y) == Square(y) - Square(x);
    }
  }

  /** The mean and the square of the sample standard deviation are the numbers these equations define. */
  lemma MeanAndVariance(xs: seq<real>, mean: real, std: real)
    requires |xs| >= 2 && mean * |xs| as real == Total(xs)
    requires std * std * (|xs| - 1) as real == SquaredDeviations(xs, mean)
    ensures Mean(xs) == mean && Variance(xs) == Square(std)
  {
    Quotient(mean, |xs| as real, Total(xs));
    Quotient(Square(std), (|xs| - 1) as real, SquaredDeviations(xs, mean));
  }

  lemma Quotient(q: real, d: real, total: real)
    requires d > 0.0 && q * d == total
    ensures total / d == q
  {
  }

  /** A value is judged by its z-score against the mean and the sample standard deviation of the values
      before it in the window: critical above the critical threshold, else a warning above the warning
      threshold, whatever the two thresholds are; never in a window that is too short or constant. */
  lemma {:induction false} JudgedByZScore(windows: Windows, source: string, field: string, value: real, size: nat,
                                          t: Thresholds, prior: seq<real>, mean: real, std: real)
    requires Push(WindowOf(windows, source, field), size, value) == prior + [value]
    requires |prior| >= 2 && mean * |prior| as real == Total(prior)
    requires std >= 0.0 && std * std * (|prior| - 1) as real == SquaredDeviations(prior, mean)
    ensures var events := EventAt(windows, source, field, value, size, t);
            if |prior| + 1 < t.minSamples || std == 0.0 then events == []
            else if Abs(value - mean) / std > t.critical then |events| == 1 && events[0].severity == Critical
            else if Abs(value - mean) / std > t.warn then |events| == 1 && events[0].severity == Warn
            else events == []
  {
    MeanAndVariance(prior, mean, std);
    assert (prior + [value])[..|prior|] == prior;
    if std > 0.0 {
      RootComparison(value - mean, std, t.critical);
      RootComparison(value - mean, std, t.warn);
      SquareOrder(std, 0.0);
    }
  }

  /** With fewer than two values before it a value is never judged. */
  lemma ColdStart(windows: Windows, source: string, field: string, value: real, size: nat, t: Thresholds)
    requires |Push(WindowOf(windows, source, field), size, value)| < 3
    ensures EventAt(windows, source, field, value, size, t) == []
  {
  }

  /** An event names its stream and reports value and mean to within half a unit of the fourth decimal. */
  lemma {:induction false} EventReports(windows: Windows, source: string, field: string, value: real, size: nat,
                                        t: Thresholds, prior: seq<real>, mean: real, std: real)
    requires Push(WindowOf(windows, source, field), size, value) == prior + [value]
    requires |prior| >= 2 && mean * |prior| as real == Total(prior)
    requires std >= 0.0 && std * std * (|prior| - 1) as real == SquaredDeviations(prior, mean)
    ensures forall e | e in EventAt(windows, source, field, value, size, t) ::
              && e.source == source && e.field == field
              && Abs(e.observed - value) <= 0.00005 && Abs(e.mean - mean) <= 0.00005
  {
    MeanAndVariance(prior, mean, std);
    assert (prior + [value])[..|prior|] == prior;
    QuantizeError(value, 10000.0);
    QuantizeError(mean, 10000.0);
  }
}
