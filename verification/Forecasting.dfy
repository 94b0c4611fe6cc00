/** Multi-horizon forecasts by exponential smoothing with rounding at every step. */
module Forecasting {
  import opened RealArith
  import opened Rounding
  import opened Sequences
  import opened Calibration

  datatype Forecast = Forecast(horizon: string, cycleDistance: int, predictions: Dict<string, real>,
                               confidence: real, forecastId: string)

  /** Horizon names and their distances in cycles, in order. */
  const HORIZONS: seq<(string, int)> := [("short", 1), ("medium", 5), ("long", 20)]

  type Values = map<string, real>

  function ValueOr(values: Values, field: string, default: real): real {
    if field in values then values[field] else default
  }

  function Smooth(alpha: real, current: real, last: real): real {
    Round6(alpha * current + (1.0 - alpha) * last)
  }

  datatype Smoothed = Smoothed(predictions: Dict<string, real>, last: Values)

  /** Smooths the fields one after the other; a repeated field builds on its own new prediction. */
  function SmoothFields(fields: seq<string>, current: Values, alpha: real, s: Smoothed): Smoothed {
    if fields == [] then s
    else
      var f := fields[0];
      var predicted := Smooth(alpha, ValueOr(current, f, 0.5), ValueOr(s.last, f, 0.5));
      SmoothFields(fields[1..], current, alpha, Smoothed(Set(s.predictions, f, predicted), s.last[f := predicted]))
  }

  /** The recorded mean absolute errors of the fields, in order. */
  function MaesOf(fields: seq<string>, horizon: string, records: Records): seq<real> {
    if fields == [] then []
    else
      var rec := Find(records, fields[0], horizon);
      (if rec.Some? then [rec.value.mae] else []) + MaesOf(fields[1..], horizon, records)
  }

  function Total(xs: seq<real>): real {
    if xs == [] then 0.0 else xs[0] + Total(xs[1..])
  }

  /** One minus the mean error, or one half without history. */
  function RawConfidence(maes: seq<real>): real {
    if maes != [] then 1.0 - Total(maes) / |maes| as real else 0.5
  }

  function Confidence(maes: seq<real>): (c: real)
    ensures 0.0 <= c <= 1.0
  {
    Round6Unit(Clamp(RawConfidence(maes)));
    Round6(Clamp(RawConfidence(maes)))
  }

  type History = map<string, Values>

  ghost predicate HasHorizons(last: History) {
    last.Keys == {"short", "medium", "long"}
  }

  function ForecastFor(h: (string, int), fields: seq<string>, current: Values, alpha: real,
                       last: Values, records: Records, id: string): Forecast {
    Forecast(h.0, h.1, SmoothFields(fields, current, alpha, Smoothed([], last)).predictions,
             Confidence(MaesOf(fields, h.0, records)), id)
  }

  function Advanced(fields: seq<string>, current: Values, alpha: real, last: Values): Values {
    SmoothFields(fields, current, alpha, Smoothed([], last)).last
  }

  /** Smoothing the fields ahead from here, and their errors after these, give the forecast of all fields. */
  ghost predicate Underway(fields: seq<string>, ahead: seq<string>, current: Values, alpha: real, start: Values,
                           now: Smoothed, horizon: string, records: Records, maes: seq<real>)
  {
    && SmoothFields(ahead, current, alpha, now) == SmoothFields(fields, current, alpha, Smoothed([], start))
    && maes + MaesOf(ahead, horizon, records) == MaesOf(fields, horizon, records)
  }

  lemma UnderwayStep(fields: seq<string>, ahead: seq<string>, current: Values, alpha: real, start: Values,
                     now: Smoothed, horizon: string, records: Records, maes: seq<real>)
    requires ahead != [] && Underway(fields, ahead, current, alpha, start, now, horizon, records, maes)
    ensures var f := ahead[0];
            var predicted := Smooth(alpha, ValueOr(current, f, 0.5), ValueOr(now.last, f, 0.5));
            var next := Smoothed(Set(now.predictions, f, predicted), now.last[f := predicted]);
            var rec := Find(records, f, horizon);
            Underway(fields, ahead[1..], current, alpha, start, next, horizon, records,
                     if rec.Some? then maes + [rec.value.mae] else maes)
  {
    var rec, rest := Find(records, ahead[0], horizon), MaesOf(ahead[1..], horizon, records);
    if rec.Some? {
      assert maes + ([rec.value.mae] + rest) == maes + [rec.value.mae] + rest;
    }
  }

  class ForecastGenerator {
    const fields: seq<string>
    const alpha: real
    var lastPredictions: History

    constructor (fs: seq<string>, a: real)
      ensures fields == fs && alpha == a && lastPredictions == InitialHistory(fs)
    {
      fields := fs;
      alpha := a;
      lastPredictions := InitialHistory(fs);
    }

    /** One forecast per horizon, under the given fresh ids; the last predictions move on. */
    method Generate(current: Values, calibration: CalibrationStore, ids: seq<string>) returns (forecasts: seq<Forecast>)
      requires HasHorizons(lastPredictions) && |ids| == |HORIZONS|
      modifies this
      ensures HasHorizons(lastPredictions)
      ensures forecasts == Forecasts(fields, alpha, old(lastPredictions), current, calibration.records, ids, |HORIZONS|)
      ensures lastPredictions == AdvancedHistory(fields, alpha, old(lastPredictions), current, |HORIZONS|)
    {
      forecasts := [];
      for k := 0 to |HORIZONS|
        invariant HasHorizons(lastPredictions)
        invariant forecasts == Forecasts(fields, alpha, old(lastPredictions), current, calibration.records, ids, k)
        invariant lastPredictions == AdvancedHistory(fields, alpha, old(lastPredictions), current, k)
      {
        OtherHorizonsUntouched(fields, alpha, old(lastPredictions), current, k);
        var forecast := GenerateOne(HORIZONS[k], current, calibration, ids[k]);
        forecasts := forecasts + [forecast];
      }
    }

    /** Smooths one field and stores its prediction. */
    method Predict(horizon: string, field: string, current: real) returns (predicted: real)
      requires horizon in lastPredictions
      modifies this
      ensures predicted == Smooth(alpha, current, ValueOr(old(lastPredictions)[horizon], field, 0.5))
      ensures lastPredictions == old(lastPredictions)[horizon := old(lastPredictions)[horizon][field := predicted]]
    {
      var last := ValueOr(lastPredictions[horizon], field, 0.5);
      predicted := Round6(alpha * current + (1.0 - alpha) * last);
      lastPredictions := lastPredictions[horizon := lastPredictions[horizon][field := predicted]];
    }

    /** The forecast of one horizon. */
    method GenerateOne(h: (string, int), current: Values, calibration: CalibrationStore, id: string)
      returns (forecast: Forecast)
      requires h.0 in lastPredictions
      modifies this
      ensures forecast == ForecastFor(h, fields, current, alpha, old(lastPredictions)[h.0], calibration.records, id)
      ensures lastPredictions
           == old(lastPredictions)[h.0 := Advanced(fields, current, alpha, old(lastPredictions)[h.0])]
    {
      var predictions: Dict<string, real> := [];
      var maes: seq<real> := [];
      ghost var start := lastPredictions[h.0];
      ghost var stored := start;
      assert fields[0..] == fields;
      for i := 0 to |fields|
        invariant lastPredictions == old(lastPredictions)[h.0 := stored]
        invariant Underway(fields, fields[i..], current, alpha, start, Smoothed(predictions, stored), h.0,
             calibration.records, maes)
      {
        UnderwayStep(fields, fields[i..], current, alpha, start, Smoothed(predictions, stored), h.0,
            calibration.records, maes);
        var field := fields[i];
        assert fields[i..][0] == field && fields[i..][1..] == fields[i + 1..];
        var predicted := Predict(h.0, field, ValueOr(current, field, 0.5));
        predictions := Set(predictions, field, predicted);
        stored := stored[field := predicted];
        var rec := calibration.Lookup(field, h.0);
        if rec.Some? {
          maes := maes + [rec.value.mae];
        }
      }
      assert maes + [] == maes;
      forecast := Forecast(h.0, h.1, predictions, Confidence(maes), id);
    }
  }

  function InitialHistory(fields: seq<string>): History {
    var half := map f | f in fields :: 0.5;
    map["short" := half, "medium" := half, "long" := half]
  }

  /** The last predictions after the first k horizons were served. */
  function AdvancedHistory(fields: seq<string>, alpha: real, last: History, current: Values, k: nat): (r: History)
    requires HasHorizons(last) && k <= |HORIZONS|
    ensures HasHorizons(r)
  {
    if k == 0 then last
    else
      var h := HORIZONS[k - 1].0;
      AdvancedHistory(fields, alpha, last, current, k - 1)[h := Advanced(fields, current, alpha, last[h])]
  }

  /** The forecasts of the first k horizons. */
  function Forecasts(fields: seq<string>, alpha: real, last: History, current: Values, records: Records,
                     ids: seq<string>, k: nat): (r: seq<Forecast>)
    requires HasHorizons(last) && k <= |HORIZONS| == |ids|
    ensures |r| == k
  {
    if k == 0 then []
    else
      var h := HORIZONS[k - 1];
      Forecasts(fields, alpha, last, current, records, ids, k - 1)
      + [ForecastFor(h, fields, current, alpha, last[h.0], records, ids[k - 1])]
  }

  lemma OtherHorizonsUntouched(fields: seq<string>, alpha: real, last: History, current: Values, k: nat)
    requires HasHorizons(last) && k < |HORIZONS|
    ensures AdvancedHistory(fields, alpha, last, current, k)[HORIZONS[k].0] == last[HORIZONS[k].0]
  {
    if k == 2 {
      assert AdvancedHistory(fields, alpha, last, current, 1)["long"] == last["long"];
    }
  }

  // ----- Properties

  ghost predicate UnitValues(v: Values) {
    forall f | f in v :: 0.0 <= v[f] <= 1.0
  }

  ghost predicate UnitPredictions(d: Dict<string, real>) {
    forall i | 0 <= i < |d| :: 0.0 <= d[i].1 <= 1.0
  }

  lemma SmoothInUnit(alpha: real, current: real, last: real)
    requires 0.0 <= alpha <= 1.0 && 0.0 <= current <= 1.0 && 0.0 <= last <= 1.0
    ensures 0.0 <= Smooth(alpha, current, last) <= 1.0
  {
    MulNonNeg(alpha, current);
    MulNonNeg(alpha, 1.0 - current);
    MulNonNeg(1.0 - alpha, last);
    MulNonNeg(1.0 - alpha, 1.0 - last);
    assert alpha * (1.0 - current) == alpha - alpha * current;
    assert (1.0 - alpha) * (1.0 - last) == 1.0 - alpha - (1.0 - alpha) * last;
    Round6Unit(alpha * current + (1.0 - alpha) * last);
  }

  /** Inputs and stored predictions in [0, 1] give predictions in [0, 1], repeated fields included. */
  lemma {:induction false} SmoothFieldsInUnit(fields: seq<string>, current: Values, alpha: real, s: Smoothed)
    requires 0.0 <= alpha <= 1.0 && UnitValues(current) && UnitValues(s.last) && UnitPredictions(s.predictions)
    ensures var r := SmoothFields(fields, current, alpha, s); UnitValues(r.last) && UnitPredictions(r.predictions)
  {
    if fields != [] {
      var f := fields[0];
      var predicted := Smooth(alpha, ValueOr(current, f, 0.5), ValueOr(s.last, f, 0.5));
      SmoothInUnit(alpha, ValueOr(current, f, 0.5), ValueOr(s.last, f, 0.5));
      SetShape(s.predictions, f, predicted);
      forall i | 0 <= i < |Set(s.predictions, f, predicted)|
        ensures 0.0 <= Set(s.predictions, f, predicted)[i].1 <= 1.0
      {
        SetMembers(s.predictions, f, predicted, i);
      }
      SmoothFieldsInUnit(fields[1..], current, alpha,
          Smoothed(Set(s.predictions, f, predicted), s.last[f := predicted]));
    }
  }

  /** The history after a run of inputs. */
  function HistoryAfter(fields: seq<string>, alpha: real, inputs: seq<Values>): (h: History)
    ensures HasHorizons(h)
  {
    if inputs == [] then InitialHistory(fields)
    else
      var n := |inputs| - 1;
      AdvancedHistory(fields, alpha, HistoryAfter(fields, alpha, inputs[..n]), inputs[n], |HORIZONS|)
  }

  lemma AdvancedPointwise(fields: seq<string>, alpha: real, last: History, current: Values)
    requires HasHorizons(last)
    ensures var r := AdvancedHistory(fields, alpha, last, current, |HORIZONS|);
            && r["short"] == Advanced(fields, current, alpha, last["short"])
            && r["medium"] == Advanced(fields, current, alpha, last["medium"])
            && r["long"] == Advanced(fields, current, alpha, last["long"])
  {
    var one := AdvancedHistory(fields, alpha, last, current, 1);
    var two := AdvancedHistory(fields, alpha, last, current, 2);
    assert AdvancedHistory(fields, alpha, last, current, 0) == last;
    assert one == last["short" := Advanced(fields, current, alpha, last["short"])];
    assert two == one["medium" := Advanced(fields, current, alpha, last["medium"])];
  }

  /** In every reachable state the three horizons hold the same predictions, all in [0, 1] when the
      inputs are. */
  lemma {:induction false} HorizonsAgree(fields: seq<string>, alpha: real, inputs: seq<Values>)
    ensures var h := HistoryAfter(fields, alpha, inputs); h["short"] == h["medium"] == h["long"]
    ensures 0.0 <= alpha <= 1.0 && (forall v | v in inputs :: UnitValues(v)) ==>
              UnitValues(HistoryAfter(fields, alpha, inputs)["short"])
  {
    if inputs != [] {
      var n := |inputs| - 1;
      var before := HistoryAfter(fields, alpha, inputs[..n]);
      HorizonsAgree(fields, alpha, inputs[..n]);
      AdvancedPointwise(fields, alpha, before, inputs[n]);
      if 0.0 <= alpha <= 1.0 && forall v | v in inputs :: UnitValues(v) {
        assert inputs[n] in inputs;
        SmoothFieldsInUnit(fields, inputs[n], alpha, Smoothed([], before["short"]));
      }
    }
  }

  /** What a forecast predicts for a field is exactly what is stored for it. */
  lemma {:induction false} PredictionIsStored(fields: seq<string>, current: Values, alpha: real, s: Smoothed, f: string)
    requires f in fields || (f in s.last && Get(s.predictions, f) == Some(s.last[f]))
    ensures var r := SmoothFields(fields, current, alpha, s); f in r.last && Get(r.predictions, f) == Some(r.last[f])
  {
    if fields != [] {
      var g := fields[0];
      var predicted := Smooth(alpha, ValueOr(current, g, 0.5), ValueOr(s.last, g, 0.5));
      GetSet(s.predictions, g, predicted, f);
      PredictionIsStored(fields[1..], current, alpha,
          Smoothed(Set(s.predictions, g, predicted), s.last[g := predicted]), f);
    }
  }

  /** In every reachable state one call predicts the same for all three horizons, keeps their distances
      and issues them under the given ids. */
  lemma {:induction false} HorizonsPredictTheSame(fields: seq<string>, alpha: real, inputs: seq<Values>,
          current: Values,
                               records: Records, ids: seq<string>)
    requires |ids| == |HORIZONS|
    ensures var fs := Forecasts(fields, alpha, HistoryAfter(fields, alpha, inputs), current, records, ids, |HORIZONS|);
            && fs[0].predictions == fs[1].predictions == fs[2].predictions
            && fs[0].cycleDistance == 1 && fs[1].cycleDistance == 5 && fs[2].cycleDistance == 20
            && forall k | 0 <= k < 3 :: fs[k].forecastId == ids[k]
  {
    HorizonsAgree(fields, alpha, inputs);
    ThreeForecasts(fields, alpha, HistoryAfter(fields, alpha, inputs), current, records, ids);
  }

  lemma ThreeForecasts(fields: seq<string>, alpha: real, last: History, current: Values, records: Records,
          ids: seq<string>)
    requires HasHorizons(last) && |ids| == |HORIZONS|
    ensures Forecasts(fields, alpha, last, current, records, ids, |HORIZONS|)
         == [ ForecastFor(HORIZONS[0], fields, current, alpha, last["short"], records, ids[0]),
              ForecastFor(HORIZONS[1], fields, current, alpha, last["medium"], records, ids[1]),
              ForecastFor(HORIZONS[2], fields, current, alpha, last["long"], records, ids[2]) ]
  {
    var two := Forecasts(fields, alpha, last, current, records, ids, 2);
    var one := Forecasts(fields, alpha, last, current, records, ids, 1);
    assert one == [ForecastFor(HORIZONS[0], fields, current, alpha, last["short"], records, ids[0])];
    assert two == one + [ForecastFor(HORIZONS[1], fields, current, alpha, last["medium"], records, ids[1])];
  }

  /** Without repetition each field is smoothed exactly once. */
  lemma {:induction false} DistinctFieldOnce(fields: seq<string>, current: Values, alpha: real, s: Smoothed, f: string)
    requires Distinct(fields)
    requires f in s.last
    ensures f in SmoothFields(fields, current, alpha, s).last
    ensures SmoothFields(fields, current, alpha, s).last[f]
         == if f in fields then Smooth(alpha, ValueOr(current, f, 0.5), s.last[f]) else s.last[f]
  {
    if fields != [] {
      var g := fields[0];
      var predicted := Smooth(alpha, ValueOr(current, g, 0.5), ValueOr(s.last, g, 0.5));
      DistinctFieldOnce(fields[1..], current, alpha,
          Smoothed(Set(s.predictions, g, predicted), s.last[g := predicted]), f);
    }
  }

  /** f applied k times. */
  function Iterate(f: real -> real, x: real, k: nat): real {
    if k == 0 then x else f(Iterate(f, x, k - 1))
  }

  function Smoothing(alpha: real, c: real): real -> real {
    x => Smooth(alpha, c, x)
  }

  function Shrinking(alpha: real): real -> real {
    d => (1.0 - alpha) * d
  }

  /** One rounded smoothing step shrinks the distance to the input by 1 - alpha, up to half a unit. */
  lemma SmoothContracts(alpha: real, c: real, last: real, bound: real)
    requires 0.0 < alpha <= 1.0 && Abs(last - c) <= bound
    ensures Abs(Smooth(alpha, c, last) - c) <= (1.0 - alpha) * bound + 0.0000005
  {
    MulNonNeg(1.0 - alpha, bound - (last - c));
    MulNonNeg(1.0 - alpha, bound + (last - c));
    var exact := alpha * c + (1.0 - alpha) * last;
    assert exact - c == (1.0 - alpha) * (last - c);
    assert -((1.0 - alpha) * bound) <= exact - c <= (1.0 - alpha) * bound;
  }

  /** x is within d + u of c. */
  ghost predicate Near(x: real, c: real, d: real, u: real) {
    Abs(x - c) <= d + u
  }

  lemma ContractionStep(alpha: real, d: real, u: real, c: real, last: real, shrunk: real)
    requires 0.0 < alpha <= 1.0 && alpha * u == 0.0000005 && Near(last, c, d, u) && shrunk == (1.0 - alpha) * d
    ensures Near(Smooth(alpha, c, last), c, shrunk, u)
  {
    SmoothContracts(alpha, c, last, d + u);
    assert (1.0 - alpha) * (d + u) == shrunk + u - alpha * u;
  }

  lemma {:induction false} StoredIsIterated(fields: seq<string>, alpha: real, inputs: seq<Values>, f: string, c: real)
    requires f in fields
    requires Distinct(fields)
    requires forall v | v in inputs :: ValueOr(v, f, 0.5) == c
    ensures f in HistoryAfter(fields, alpha, inputs)["short"]
    ensures HistoryAfter(fields, alpha, inputs)["short"][f] == Iterate(Smoothing(alpha, c), 0.5, |inputs|)
  {
    if inputs != [] {
      var n := |inputs| - 1;
      assert inputs[n] in inputs;
      StoredIsIterated(fields, alpha, inputs[..n], f, c);
      var before := HistoryAfter(fields, alpha, inputs[..n]);
      AdvancedPointwise(fields, alpha, before, inputs[n]);
      DistinctFieldOnce(fields, inputs[n], alpha, Smoothed([], before["short"]), f);
    }
  }

  ghost predicate Contracts(f: real -> real, shrink: real -> real, c: real, u: real) {
    forall y, e :: Near(y, c, e, u) ==> Near(f(y), c, shrink(e), u)
  }

  lemma SmoothingContractsAt(alpha: real, c: real, u: real, y: real, e: real)
    requires 0.0 < alpha <= 1.0 && alpha * u == 0.0000005 && Near(y, c, e, u)
    ensures Near(Smoothing(alpha, c)(y), c, Shrinking(alpha)(e), u)
  {
    ContractionStep(alpha, e, u, c, y, Shrinking(alpha)(e));
  }

  lemma SmoothingContracts(alpha: real, c: real, u: real)
    requires 0.0 < alpha <= 1.0 && alpha * u == 0.0000005
    ensures Contracts(Smoothing(alpha, c), Shrinking(alpha), c, u)
  {
    forall y, e | Near(y, c, e, u)
      ensures Near(Smoothing(alpha, c)(y), c, Shrinking(alpha)(e), u)
    {
      SmoothingContractsAt(alpha, c, u, y, e);
    }
  }

  /** A step that keeps values near c, while their allowance shrinks, can be repeated. */
  lemma {:induction false} IterateNear(f: real -> real, shrink: real -> real, c: real, u: real, x: real,
          d: real, k: nat)
    requires Contracts(f, shrink, c, u) && Near(x, c, d, u)
    ensures Near(Iterate(f, x, k), c, Iterate(shrink, d, k), u)
  {
    if k > 0 {
      IterateNear(f, shrink, c, u, x, d, k - 1);
    }
  }

  lemma IterationConverges(alpha: real, c: real, u: real, k: nat)
    requires 0.0 < alpha <= 1.0 && u > 0.0 && alpha * u == 0.0000005
    ensures Near(Iterate(Smoothing(alpha, c), 0.5, k), c, Iterate(Shrinking(alpha), Abs(0.5 - c), k), u)
  {
    SmoothingContracts(alpha, c, u);
    assert Near(0.5, c, Abs(0.5 - c), u);
    IterateNear(Smoothing(alpha, c), Shrinking(alpha), c, u, 0.5, Abs(0.5 - c), k);
  }

  lemma IterationBound(alpha: real, c: real, k: nat)
    requires 0.0 < alpha <= 1.0
    ensures Near(Iterate(Smoothing(alpha, c), 0.5, k), c, Iterate(Shrinking(alpha), Abs(0.5 - c), k), 0.0000005 / alpha)
  {
    assert 0.0000005 / alpha > 0.0 && alpha * (0.0000005 / alpha) == 0.0000005;
    IterationConverges(alpha, c, 0.0000005 / alpha, k);
  }

  /** Under a constant input c, the stored prediction after k cycles is within (1 - alpha)^k |1/2 - c|
      plus the accumulated rounding of c. By HorizonsAgree this is so for every horizon. */
  lemma {:induction false} Convergence(fields: seq<string>, alpha: real, inputs: seq<Values>, f: string, c: real)
    requires 0.0 < alpha <= 1.0 && f in fields
    requires Distinct(fields)
    requires forall v | v in inputs :: ValueOr(v, f, 0.5) == c
    ensures f in HistoryAfter(fields, alpha, inputs)["short"]
    ensures Near(HistoryAfter(fields, alpha, inputs)["short"][f], c,
                 Iterate(Shrinking(alpha), Abs(0.5 - c), |inputs|), 0.0000005 / alpha)
  {
    StoredIsIterated(fields, alpha, inputs, f, c);
    IterationBound(alpha, c, |inputs|);
  }

  // ----- Changing inputs

  /** The exact exponential mean of a field's inputs, one half before the first and for absent ones. */
  function ExactMean(alpha: real, inputs: seq<Values>, f: string): real {
    if inputs == [] then 0.5
    else
      var n := |inputs| - 1;
      Mix(alpha, if f in inputs[n] then inputs[n][f] else 0.5, ExactMean(alpha, inputs[..n], f))
  }

  function Mix(alpha: real, x: real, y: real): real {
    alpha * x + (1.0 - alpha) * y
  }

  lemma MixClose(alpha: real, x: real, y: real, y': real, u: real)
    requires 0.0 < alpha <= 1.0 && Abs(y - y') <= u
    ensures Abs(Mix(alpha, x, y) - Mix(alpha, x, y')) <= u - alpha * u
  {
    var rest := 1.0 - alpha;
    ScaledAbs(y - y', u, rest);
    assert (y - y') * rest == Mix(alpha, x, y) - Mix(alpha, x, y');
    assert u * rest == u - alpha * u;
  }

  /** One rounded step from a value within u of the exact mean stays within u of the next. */
  lemma StepStaysClose(alpha: real, x: real, last: real, exact: real, u: real)
    requires 0.0 < alpha <= 1.0 && alpha * u == 0.0000005 && Abs(last - exact) <= u
    ensures Abs(Smooth(alpha, x, last) - Mix(alpha, x, exact)) <= u
  {
    MixClose(alpha, x, last, exact, u);
    assert Smooth(alpha, x, last) == Round6(Mix(alpha, x, last));
  }

  /** One more input smooths the stored prediction once. */
  lemma StoredStep(fields: seq<string>, alpha: real, inputs: seq<Values>, f: string)
    requires inputs != [] && f in fields && Distinct(fields)
    requires f in HistoryAfter(fields, alpha, inputs[..|inputs| - 1])["short"]
    ensures f in HistoryAfter(fields, alpha, inputs)["short"]
    ensures HistoryAfter(fields, alpha, inputs)["short"][f]
         == Smooth(alpha, ValueOr(inputs[|inputs| - 1], f, 0.5),
                   HistoryAfter(fields, alpha, inputs[..|inputs| - 1])["short"][f])
  {
    var n := |inputs| - 1;
    var before := HistoryAfter(fields, alpha, inputs[..n]);
    AdvancedPointwise(fields, alpha, before, inputs[n]);
    DistinctFieldOnce(fields, inputs[n], alpha, Smoothed([], before["short"]), f);
  }

  /** The stored prediction is within u of the exact mean. */
  predicate TracksMean(fields: seq<string>, alpha: real, inputs: seq<Values>, f: string, u: real) {
    var stored := HistoryAfter(fields, alpha, inputs)["short"];
    f in stored && Abs(stored[f] - ExactMean(alpha, inputs, f)) <= u
  }

  lemma TracksStep(fields: seq<string>, alpha: real, inputs: seq<Values>, f: string, u: real)
    requires 0.0 < alpha <= 1.0 && f in fields && Distinct(fields) && alpha * u == 0.0000005
    requires inputs != [] && TracksMean(fields, alpha, inputs[..|inputs| - 1], f, u)
    ensures TracksMean(fields, alpha, inputs, f, u)
  {
    StoredStep(fields, alpha, inputs, f);
    SmoothedNear(alpha, inputs, f, HistoryAfter(fields, alpha, inputs[..|inputs| - 1])["short"][f], u);
  }

  lemma SmoothedNear(alpha: real, inputs: seq<Values>, f: string, last: real, u: real)
    requires 0.0 < alpha <= 1.0 && alpha * u == 0.0000005
    requires inputs != [] && Abs(last - ExactMean(alpha, inputs[..|inputs| - 1], f)) <= u
    ensures Abs(Smooth(alpha, ValueOr(inputs[|inputs| - 1], f, 0.5), last) - ExactMean(alpha, inputs, f)) <= u
  {
    var n := |inputs| - 1;
    var x, exact := ValueOr(inputs[n], f, 0.5), ExactMean(alpha, inputs[..n], f);
    StepStaysClose(alpha, x, last, exact, u);
  }

  lemma {:induction false} TracksWithin(fields: seq<string>, alpha: real, inputs: seq<Values>, f: string, u: real)
    requires 0.0 < alpha <= 1.0 && f in fields && Distinct(fields) && u > 0.0 && alpha * u == 0.0000005
    ensures TracksMean(fields, alpha, inputs, f, u)
  {
    if inputs != [] {
      TracksWithin(fields, alpha, inputs[..|inputs| - 1], f, u);
      TracksStep(fields, alpha, inputs, f, u);
    }
  }

  /** Whatever the inputs, the stored prediction is the exact exponential mean up to 5e-7 / alpha. */
  lemma {:induction false} TracksExactMean(fields: seq<string>, alpha: real, inputs: seq<Values>, f: string)
    requires 0.0 < alpha <= 1.0 && f in fields && Distinct(fields)
    ensures f in HistoryAfter(fields, alpha, inputs)["short"]
    ensures Abs(HistoryAfter(fields, alpha, inputs)["short"][f] - ExactMean(alpha, inputs, f)) <= 0.0000005 / alpha
  {
    assert 0.0000005 / alpha > 0.0 && alpha * (0.0000005 / alpha) == 0.0000005;
    TracksWithin(fields, alpha, inputs, f, 0.0000005 / alpha);
  }
}
