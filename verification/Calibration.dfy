/** Forecast accuracy per field and horizon: incremental means, rounded at every update. */
module Calibration {
  import opened RealArith
  import opened Rounding
  import opened Sequences

  datatype CalibrationRecord = CalibrationRecord(field: string, horizon: string, mae: real, bias: real,
      sampleCount: nat)

  type Records = map<string, CalibrationRecord>

  /** One comparison of a prediction with what happened. */
  datatype Observation = Observation(field: string, horizon: string, predicted: real, actual: real) {
    function Error(): real {
      predicted - actual
    }
  }

  function Key(field: string, horizon: string): string {
    field + ":" + horizon
  }

  /** The mean of n values and one more, rounded. */
  function MeanStep(mean: real, n: nat, x: real): real {
    Round6((mean * n as real + x) / (n + 1) as real)
  }

  function Improved(rec: CalibrationRecord, error: real): CalibrationRecord {
    var n := rec.sampleCount;
    rec.(mae := MeanStep(rec.mae, n, Abs(error)), bias := MeanStep(rec.bias, n, error), sampleCount := n + 1)
  }

  function Learn(records: Records, o: Observation): Records {
    var key := Key(o.field, o.horizon);
    var rec := if key in records then records[key] else CalibrationRecord(o.field, o.horizon, 0.0, 0.0, 0);
    records[key := Improved(rec, o.Error())]
  }

  class CalibrationStore {
    var records: Records

    constructor ()
      ensures records == map[]
    {
      records := map[];
    }

    method Update(field: string, horizon: string, predicted: real, actual: real) returns (rec: CalibrationRecord)
      modifies this
      ensures records == Learn(old(records), Observation(field, horizon, predicted, actual))
      ensures Key(field, horizon) in records && rec == records[Key(field, horizon)]
    {
      var key := Key(field, horizon);
      if key !in records {
        records := records[key := CalibrationRecord(field, horizon, 0.0, 0.0, 0)];
      }
      rec := records[key];
      var error := predicted - actual;
      var n := rec.sampleCount;
      rec := rec.(mae := MeanStep(rec.mae, n, Abs(error)));
      rec := rec.(bias := MeanStep(rec.bias, n, error));
      rec := rec.(sampleCount := n + 1);
      records := records[key := rec];
    }

    function Lookup(field: string, horizon: string): Option<CalibrationRecord>
      reads this
    {
      Find(records, field, horizon)
    }
  }

  function Find(records: Records, field: string, horizon: string): Option<CalibrationRecord> {
    var key := Key(field, horizon);
    if key in records then Some(records[key]) else None
  }

  // ----- Keys

  /** long ends in a colon followed by short. */
  predicate EndsInField(long: string, short: string) {
    |long| > |short| && long[|long| - |short| - 1..] == ":" + short
  }

  lemma LongerField(f: string, h: string, f': string, h': string)
    requires Key(f, h) == Key(f', h') && |f| < |f'|
    ensures EndsInField(h, h')
  {
    var k := Key(f, h);
    assert k[|f| + 1..] == h && k[|f'|..] == ":" + h';
    assert h[|f'| - |f| - 1..] == k[|f'|..];
  }

  lemma SameLengthField(f: string, h: string, f': string, h': string)
    requires Key(f, h) == Key(f', h') && |f| == |f'|
    ensures f == f' && h == h'
  {
    assert Key(f, h)[..|f|] == f && Key(f', h')[..|f'|] == f';
    assert Key(f, h)[|f| + 1..] == h && Key(f', h')[|f'| + 1..] == h';
  }

  lemma SharedKey(h: string, h': string)
    requires EndsInField(h, h')
    ensures Key("", h) == Key(":" + h[..|h| - |h'| - 1], h')
  {
    var s := h[..|h| - |h'| - 1];
    assert h == s + (":" + h');
    assert "" + ":" + h == ":" + s + ":" + h';
  }

  /** Different pairs with the same key have horizons one of which ends in a colon and the other. */
  lemma SharedKeyHorizons(f: string, h: string, f': string, h': string)
    requires Key(f, h) == Key(f', h') && (f != f' || h != h')
    ensures EndsInField(h, h') || EndsInField(h', h)
  {
    if |f| < |f'| {
      LongerField(f, h, f', h');
    } else if |f'| < |f| {
      LongerField(f', h', f, h);
    } else {
      SameLengthField(f, h, f', h');
    }
  }

  lemma FieldColon(long: string, short: string)
    ensures EndsInField(long, short) ==> ':' in long
  {
    if EndsInField(long, short) {
      assert long[|long| - |short| - 1] == (":" + short)[0];
    }
  }

  /** Horizon names without a colon, as the program's are, keep distinct pairs under distinct keys. */
  lemma {:induction false} KeyInjective(f: string, h: string, f': string, h': string)
    requires ':' !in h && ':' !in h'
    ensures Key(f, h) == Key(f', h') <==> f == f' && h == h'
  {
    if Key(f, h) == Key(f', h') && (f != f' || h != h') {
      SharedKeyHorizons(f, h, f', h');
      FieldColon(h, h');
      FieldColon(h', h);
    }
  }

  /** Two horizons let different pairs share a record exactly when one ends in a colon followed by the other. */
  lemma {:induction false} KeyCollision(h: string, h': string)
    ensures (exists f, f' :: (f != f' || h != h') && Key(f, h) == Key(f', h'))
       <==> EndsInField(h, h') || EndsInField(h', h)
  {
    forall f, f' | (f != f' || h != h') && Key(f, h) == Key(f', h')
      ensures EndsInField(h, h') || EndsInField(h', h)
    {
      SharedKeyHorizons(f, h, f', h');
    }
    if EndsInField(h, h') {
      SharedKey(h, h');
    }
    if EndsInField(h', h) {
      SharedKey(h', h);
    }
  }

  // ----- Runs of updates

  function LearnAll(records: Records, observations: seq<Observation>): Records {
    if observations == [] then records
    else
      var last := |observations| - 1;
      Learn(LearnAll(records, observations[..last]), observations[last])
  }

  lemma {:induction false} LearnAllConcat(records: Records, a: seq<Observation>, b: seq<Observation>)
    ensures LearnAll(records, a + b) == LearnAll(LearnAll(records, a), b)
  {
    if b == [] {
      assert a + b == a;
    } else {
      var last := |b| - 1;
      assert (a + b)[..|a + b| - 1] == a + b[..last] && (a + b)[|a + b| - 1] == b[last];
      LearnAllConcat(records, a, b[..last]);
    }
  }

  /** The errors of the observations filed under a key, oldest first. */
  function ErrorsFor(observations: seq<Observation>, key: string): seq<real> {
    if observations == [] then []
    else
      var last := |observations| - 1;
      var o := observations[last];
      ErrorsFor(observations[..last], key) + if Key(o.field, o.horizon) == key then [o.Error()] else []
  }

  function Sum(xs: seq<real>): real {
    if xs == [] then 0.0 else Sum(xs[..|xs| - 1]) + xs[|xs| - 1]
  }

  function SumAbs(xs: seq<real>): real {
    if xs == [] then 0.0 else SumAbs(xs[..|xs| - 1]) + Abs(xs[|xs| - 1])
  }

  /** Half a unit of the sixth decimal for each of the first n updates, weighted by the update's number. */
  function Budget(n: nat): real {
    if n == 0 then 0.0 else Budget(n - 1) + n as real * 0.0000005
  }

  lemma {:induction false} BudgetClosed(n: nat)
    ensures Budget(n) == n as real * (n + 1) as real / 2.0 * 0.0000005
  {
    if n > 0 {
      BudgetClosed(n - 1);
    }
  }

  /** A rounded mean of n values whose exact total is known: its own total is within budget. */
  predicate Within(mean: real, n: nat, total: real) {
    -Budget(n) <= mean * n as real - total <= Budget(n)
  }

  /** The record has seen exactly these errors, and its rounded totals are within budget. */
  ghost predicate Tracks(rec: CalibrationRecord, errors: seq<real>) {
    && rec.sampleCount == |errors|
    && Within(rec.mae, |errors|, SumAbs(errors))
    && Within(rec.bias, |errors|, Sum(errors))
    && Abs(rec.bias) <= rec.mae
  }

  lemma ScaledTotal(rounded: real, exact: real, d: real, total: real)
    requires -0.0000005 <= rounded - exact <= 0.0000005 && d > 0.0 && exact * d == total
    ensures -(d * 0.0000005) <= rounded * d - total <= d * 0.0000005
  {
    MulNonNeg(0.0000005 - (rounded - exact), d);
    MulNonNeg(0.0000005 + (rounded - exact), d);
  }

  /** One rounded division by d moves the total by at most half a unit per observation. */
  lemma RoundedQuotient(total: real, d: real)
    requires d > 0.0
    ensures -(d * 0.0000005) <= Round6(total / d) * d - total <= d * 0.0000005
  {
    ScaledTotal(Round6(total / d), total / d, d, total);
  }

  lemma MeanStepWithin(mean: real, n: nat, x: real, total: real)
    requires Within(mean, n, total)
    ensures Within(MeanStep(mean, n, x), n + 1, total + x)
  {
    var before, d := mean * n as real, (n + 1) as real;
    RoundedQuotient(before + x, d);
    WithinIntro(MeanStep(mean, n, x), n + 1, before, x, total, Budget(n));
  }

  lemma WithinIntro(mean: real, n: nat, before: real, x: real, total: real, budget: real)
    requires n > 0 && budget == Budget(n - 1) && -budget <= before - total <= budget
    requires -(n as real * 0.0000005) <= mean * n as real - (before + x) <= n as real * 0.0000005
    ensures Within(mean, n, total + x)
  {
  }

  lemma ScaledAbs(a: real, b: real, n: real)
    requires Abs(a) <= b && n >= 0.0
    ensures Abs(a * n) <= b * n
  {
    MulMono(a, b, n);
    MulMono(-b, a, n);
    assert -b * n == -(b * n);
  }

  lemma RoundedQuotientAbs(signed: real, absolute: real, d: real)
    requires Abs(signed) <= absolute && d > 0.0
    ensures Abs(Round6(signed / d)) <= Round6(absolute / d)
  {
    DivMono(signed, absolute, d);
    DivMono(-absolute, signed, d);
    assert -absolute / d == -(absolute / d);
    Round6Abs(signed / d);
    Round6Monotone(Abs(signed / d), absolute / d);
  }

  /** Rounding each mean on its own never lifts the bias above the mean absolute error. */
  lemma {:induction false} BiasBelowMae(mae: real, bias: real, error: real, n: nat)
    requires Abs(bias) <= mae
    ensures Abs(MeanStep(bias, n, error)) <= MeanStep(mae, n, Abs(error))
  {
    var d := (n + 1) as real;
    var signed, absolute := bias * n as real + error, mae * n as real + Abs(error);
    assert Abs(signed) <= absolute by {
      ScaledAbs(bias, mae, n as real);
      SumAbsBound(bias * n as real, mae * n as real, error);
    }
    assert Abs(Round6(signed / d)) <= Round6(absolute / d) by {
      RoundedQuotientAbs(signed, absolute, d);
    }
  }

  lemma SumAbsBound(a: real, b: real, c: real)
    requires Abs(a) <= b
    ensures Abs(a + c) <= b + Abs(c)
  {
  }

  lemma ImprovedTracks(rec: CalibrationRecord, errors: seq<real>, error: real)
    requires Tracks(rec, errors)
    ensures Tracks(Improved(rec, error), errors + [error])
  {
    var longer := errors + [error];
    assert longer[..|longer| - 1] == errors;
    MeanStepWithin(rec.mae, |errors|, Abs(error), SumAbs(errors));
    MeanStepWithin(rec.bias, |errors|, error, Sum(errors));
    BiasBelowMae(rec.mae, rec.bias, error, |errors|);
  }

  lemma FreshTracks(field: string, horizon: string)
    ensures Tracks(CalibrationRecord(field, horizon, 0.0, 0.0, 0), [])
  {
  }

  /** In every state reachable from an empty store a key has a record exactly when something was
      observed under it, and the record tracks exactly those observations. */
  lemma {:induction false} StoreTracks(observations: seq<Observation>, key: string)
    ensures var records := LearnAll(map[], observations);
            && (key in records <==> ErrorsFor(observations, key) != [])
            && (key in records ==> Tracks(records[key], ErrorsFor(observations, key)))
  {
    if observations != [] {
      var last := |observations| - 1;
      var before, o := observations[..last], observations[last];
      StoreTracks(before, key);
      LearnTracks(LearnAll(map[], before), ErrorsFor(before, key), o, key);
    }
  }

  lemma LearnTracks(records: Records, errors: seq<real>, o: Observation, key: string)
    requires key in records <==> errors != []
    requires key in records ==> Tracks(records[key], errors)
    ensures var records' := Learn(records, o);
            var errors' := errors + if Key(o.field, o.horizon) == key then [o.Error()] else [];
            && (key in records' <==> errors' != [])
            && (key in records' ==> Tracks(records'[key], errors'))
  {
    if Key(o.field, o.horizon) == key {
      FreshTracks(o.field, o.horizon);
      var rec := if key in records then records[key] else CalibrationRecord(o.field, o.horizon, 0.0, 0.0, 0);
      ImprovedTracks(rec, errors, o.Error());
    } else {
      assert errors + [] == errors;
    }
  }

  /** Rounding drift: once n >= 1 errors were observed under a key, both stored means are within
      (n + 1) / 2 half-units of the exact means, and the bias is never larger than the mean absolute error. */
  lemma {:induction false} DriftBound(observations: seq<Observation>, key: string)
    ensures var records, errors := LearnAll(map[], observations), ErrorsFor(observations, key);
            errors != [] ==>
              var n := |errors| as real;
              && key in records
              && Abs(records[key].mae - SumAbs(errors) / n) <= (n + 1.0) / 2.0 * 0.0000005
              && Abs(records[key].bias - Sum(errors) / n) <= (n + 1.0) / 2.0 * 0.0000005
              && Abs(records[key].bias) <= records[key].mae
  {
    StoreTracks(observations, key);
    var records, errors := LearnAll(map[], observations), ErrorsFor(observations, key);
    if errors != [] {
      WithinToMean(records[key].mae, |errors|, SumAbs(errors));
      WithinToMean(records[key].bias, |errors|, Sum(errors));
    }
  }

  lemma WithinToMean(mean: real, n: nat, total: real)
    requires n > 0 && Within(mean, n, total)
    ensures Abs(mean - total / n as real) <= (n as real + 1.0) / 2.0 * 0.0000005
  {
    var d := n as real;
    var slack := (d + 1.0) / 2.0 * 0.0000005;
    var gap := mean - total / d;
    BudgetClosed(n);
    assert gap * d == mean * d - total;
    assert slack * d == Budget(n);
    Cancel(gap, slack, d);
    Cancel(-slack, gap, d);
  }

  lemma Cancel(a: real, b: real, d: real)
    requires d > 0.0 && a * d <= b * d
    ensures a <= b
  {
  }

  // ----- The sign of an error

  function Signed(high: bool, x: real): real {
    if high then x else -x
  }

  /** All predictions of the pair are too high, or all are too low. */
  ghost predicate OneSided(observations: seq<Observation>, key: string, high: bool) {
    forall o | o in observations && Key(o.field, o.horizon) == key ::
      if high then o.predicted >= o.actual else o.predicted <= o.actual
  }

  /** A bias that is the mean absolute error with a sign stays so when the next error has that sign. */
  lemma SignedStep(mean: real, n: nat, error: real, high: bool)
    requires if high then error >= 0.0 else error <= 0.0
    ensures MeanStep(Signed(high, mean), n, error) == Signed(high, MeanStep(mean, n, Abs(error)))
  {
    var d, total := (n + 1) as real, mean * n as real + Abs(error);
    assert MeanStep(mean, n, Abs(error)) == Round6(total / d);
    if high {
      assert Abs(error) == error;
    } else {
      assert MeanStep(-mean, n, error) == Round6(-total / d) by {
        assert (-mean) * n as real + error == -total;
      }
      NegatedMean(total, d);
    }
  }

  lemma NegatedMean(total: real, d: real)
    requires d > 0.0
    ensures Round6(-total / d) == -Round6(total / d)
  {
    QuantizeOdd(total / d, 1000000.0);
    assert -total / d == -(total / d);
  }

  lemma SignedImproved(rec: CalibrationRecord, o: Observation, high: bool)
    requires rec.bias == Signed(high, rec.mae)
    requires if high then o.predicted >= o.actual else o.predicted <= o.actual
    ensures var next := Improved(rec, o.Error()); next.bias == Signed(high, next.mae)
  {
    SignedStep(rec.mae, rec.sampleCount, o.Error(), high);
  }

  /** When all predictions of a pair err on one side the stored bias is, exactly, the stored mean absolute
      error: with its own sign for predictions that are too high, negated for those that are too low. */
  lemma {:induction false} BiasOfOneSided(observations: seq<Observation>, key: string, high: bool)
    requires OneSided(observations, key, high)
    ensures var records := LearnAll(map[], observations);
            key in records ==> records[key].bias == if high then records[key].mae else -records[key].mae
  {
    if observations != [] {
      var last := |observations| - 1;
      var before, o := LearnAll(map[], observations[..last]), observations[last];
      BiasOfOneSided(observations[..last], key, high);
      if Key(o.field, o.horizon) == key {
        var rec := if key in before then before[key] else CalibrationRecord(o.field, o.horizon, 0.0, 0.0, 0);
        SignedImproved(rec, o, high);
      }
    }
  }

  /** The first observation of a pair is stored as it is, rounded. */
  lemma {:induction false} FirstObservation(records: Records, o: Observation)
    requires Key(o.field, o.horizon) !in records
    ensures Learn(records, o)[Key(o.field, o.horizon)]
         == CalibrationRecord(o.field, o.horizon, Round6(Abs(o.actual - o.predicted)),
                              Round6(o.predicted - o.actual), 1)
  {
    assert (0.0 * 0.0 + (o.predicted - o.actual)) / 1.0 == o.predicted - o.actual;
  }
}
