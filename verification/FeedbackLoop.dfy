/** Forecasts wait until their distance in cycles has passed, are compared with what happened, and
    update calibration and the confidence of linked plan threads. */
module FeedbackLoop {
  import opened Rounding
  import opened Sequences
  import opened Calibration
  import opened Forecasting
  import opened PlanTree

  datatype FeedbackResult = FeedbackResult(forecastId: string, horizon: string, field: string, predicted: real,
                                           actual: real, error: real, calibrationUpdated: bool)

  datatype PendingForecast = PendingForecast(forecast: Forecast, registeredCycle: int) {
    predicate Mature(cycle: int) {
      cycle - registeredCycle >= forecast.cycleDistance
    }
  }

  type PendingQueue = Dict<string, PendingForecast>

  /** What resolution updates. */
  datatype Knowledge = Knowledge(records: Records, threads: Threads)

  /** Everything the loop reads and writes. */
  datatype Planner = Planner(cycle: nat, pending: PendingQueue, known: Knowledge, threshold: real)

  // ----- One forecast

  function ResultFor(f: Forecast, field: string, predicted: real, actual: Values): FeedbackResult {
    var a := ValueOr(actual, field, predicted);
    FeedbackResult(f.forecastId, f.horizon, field, predicted, a, Round6(a - predicted), true)
  }

  /** One result per predicted field, in the order of the predictions. */
  function ResultsOf(f: Forecast, actual: Values): (r: seq<FeedbackResult>)
    ensures |r| == |f.predictions|
    ensures forall i | 0 <= i < |r| :: r[i] == ResultFor(f, f.predictions[i].0, f.predictions[i].1, actual)
  {
    seq(|f.predictions|, i requires 0 <= i < |f.predictions| =>
      ResultFor(f, f.predictions[i].0, f.predictions[i].1, actual))
  }

  function ObservationOf(r: FeedbackResult): Observation {
    Observation(r.field, r.horizon, r.predicted, r.actual)
  }

  function ObservationsOf(rs: seq<FeedbackResult>): (os: seq<Observation>)
    ensures |os| == |rs| && forall i | 0 <= i < |rs| :: os[i] == ObservationOf(rs[i])
  {
    seq(|rs|, i requires 0 <= i < |rs| => ObservationOf(rs[i]))
  }

  /** The confidence a matured forecast gives to the threads linked to it. */
  function NewConfidence(f: Forecast, records: Records): real {
    RawConfidence(MaesOf(KeysOf(f.predictions), f.horizon, records))
  }

  predicate LinkedActive(t: PlanThread, forecastId: string) {
    t.status.Active? && forecastId in t.forecastIds
  }

  function RefreshedThread(t: PlanThread, forecastId: string, confidence: real, threshold: real): PlanThread {
    if LinkedActive(t, forecastId) then Reassessed(t, confidence, threshold) else t
  }

  /** Reassesses exactly the active threads linked to the forecast. */
  function Refreshed(threads: Threads, forecastId: string, confidence: real, threshold: real): (r: Threads)
    ensures |r| == |threads|
    ensures forall i | 0 <= i < |r| ::
              r[i] == (threads[i].0, RefreshedThread(threads[i].1, forecastId, confidence, threshold))
  {
    seq(|threads|, i requires 0 <= i < |threads| =>
      (threads[i].0, RefreshedThread(threads[i].1, forecastId, confidence, threshold)))
  }

  function ResolveOne(k: Knowledge, f: Forecast, actual: Values, threshold: real): Knowledge {
    var records := LearnAll(k.records, ObservationsOf(ResultsOf(f, actual)));
    Knowledge(records, Refreshed(k.threads, f.forecastId, NewConfidence(f, records), threshold))
  }

  // ----- The whole queue

  /** The forecasts that mature at this cycle, in order of registration. */
  function Maturing(pending: PendingQueue, cycle: int): seq<Forecast> {
    if pending == [] then []
    else if pending[0].1.Mature(cycle) then [pending[0].1.forecast] + Maturing(pending[1..], cycle)
    else Maturing(pending[1..], cycle)
  }

  function Waiting(pending: PendingQueue, cycle: int): PendingQueue {
    if pending == [] then []
    else if pending[0].1.Mature(cycle) then Waiting(pending[1..], cycle)
    else [pending[0]] + Waiting(pending[1..], cycle)
  }

  function ResolveEach(k: Knowledge, fs: seq<Forecast>, actual: Values, threshold: real): Knowledge
    decreases fs
  {
    if fs == [] then k else ResolveEach(ResolveOne(k, fs[0], actual, threshold), fs[1..], actual, threshold)
  }

  function AllResults(fs: seq<Forecast>, actual: Values): seq<FeedbackResult> {
    if fs == [] then [] else ResultsOf(fs[0], actual) + AllResults(fs[1..], actual)
  }

  function Registered(s: Planner, f: Forecast): Planner {
    s.(pending := Set(s.pending, f.forecastId, PendingForecast(f, s.cycle)))
  }

  function Resolved(s: Planner, actual: Values): Planner {
    s.(cycle := s.cycle + 1,
       pending := Waiting(s.pending, s.cycle + 1),
       known := ResolveEach(s.known, Maturing(s.pending, s.cycle + 1), actual, s.threshold))
  }

  function ResultsNow(s: Planner, actual: Values): seq<FeedbackResult> {
    AllResults(Maturing(s.pending, s.cycle + 1), actual)
  }

  // ----- Deleting the resolved ids one by one

  function Delete<V>(d: Dict<string, V>, k: string): Dict<string, V> {
    if d == [] then [] else if d[0].0 == k then d[1..] else [d[0]] + Delete(d[1..], k)
  }

  function DeleteAll<V>(d: Dict<string, V>, ks: seq<string>): Dict<string, V>
    decreases ks
  {
    if ks == [] then d else DeleteAll(Delete(d, ks[0]), ks[1..])
  }

  ghost predicate FiledById(pending: PendingQueue) {
    && DistinctKeys(pending)
    && forall i | 0 <= i < |pending| :: pending[i].1.forecast.forecastId == pending[i].0
  }

  function IdsOf(fs: seq<Forecast>): (ids: seq<string>)
    ensures |ids| == |fs| && forall i | 0 <= i < |fs| :: ids[i] == fs[i].forecastId
  {
    seq(|fs|, i requires 0 <= i < |fs| => fs[i].forecastId)
  }

  lemma {:induction false} DeleteAllSkips<V>(d: Dict<string, V>, ks: seq<string>)
    requires d != [] && d[0].0 !in ks
    ensures DeleteAll(d, ks) == [d[0]] + DeleteAll(d[1..], ks)
    decreases ks
  {
    if ks != [] {
      DeleteAllSkips(Delete(d, ks[0]), ks[1..]);
    }
  }

  lemma {:induction false} MaturingMembers(pending: PendingQueue, cycle: int)
    requires FiledById(pending)
    ensures forall f | f in Maturing(pending, cycle) :: exists i :: 0 <= i < |pending| && pending[i].0 == f.forecastId
  {
    if pending != [] {
      MaturingMembers(pending[1..], cycle);
      forall f | f in Maturing(pending, cycle)
        ensures exists i :: 0 <= i < |pending| && pending[i].0 == f.forecastId
      {
        if f in Maturing(pending[1..], cycle) {
          var i :| 0 <= i < |pending| - 1 && pending[1..][i].0 == f.forecastId;
          assert pending[i + 1].0 == f.forecastId;
        } else {
          assert pending[0].0 == f.forecastId;
        }
      }
    }
  }

  /** Deleting the matured ids leaves exactly the waiting entries. */
  lemma {:induction false} DeleteMature(pending: PendingQueue, cycle: int)
    requires FiledById(pending)
    ensures DeleteAll(pending, IdsOf(Maturing(pending, cycle))) == Waiting(pending, cycle)
  {
    if pending != [] {
      var rest, mature := pending[1..], Maturing(pending, cycle);
      DeleteMature(rest, cycle);
      if pending[0].1.Mature(cycle) {
        assert IdsOf(mature)[1..] == IdsOf(Maturing(rest, cycle));
      } else {
        MaturingMembers(rest, cycle);
        forall id | id in IdsOf(mature) ensures id != pending[0].0 {
          var j :| 0 <= j < |mature| && IdsOf(mature)[j] == id;
          assert mature[j] in Maturing(rest, cycle);
        }
        DeleteAllSkips(pending, IdsOf(mature));
      }
    }
  }

  lemma {:induction false} WaitingFiled(pending: PendingQueue, cycle: int)
    requires FiledById(pending)
    ensures FiledById(Waiting(pending, cycle))
    ensures forall i | 0 <= i < |Waiting(pending, cycle)| :: Waiting(pending, cycle)[i] in pending
  {
    if pending != [] {
      WaitingFiled(pending[1..], cycle);
    }
  }

  // ----- The loop

  class ForecastFeedbackLoop {
    const calibration: CalibrationStore
    const planTree: PlanTree
    var pending: PendingQueue
    var cycle: nat

    constructor (c: CalibrationStore, p: PlanTree)
      ensures calibration == c && planTree == p && pending == [] && cycle == 0
    {
      calibration := c;
      planTree := p;
      pending := [];
      cycle := 0;
    }

    ghost predicate Valid()
      reads this, planTree
    {
      FiledById(pending) && WellFiled(planTree.threads)
    }

    ghost function State(): Planner
      reads this, calibration, planTree
    {
      Planner(cycle, pending, Known(), planTree.abandonThreshold)
    }

    ghost function Known(): Knowledge
      reads calibration, planTree
    {
      Knowledge(calibration.records, planTree.threads)
    }

    method Register(forecast: Forecast)
      requires Valid()
      modifies this`pending
      ensures Valid() && State() == Registered(old(State()), forecast)
    {
      SetFiled(pending, forecast, cycle);
      pending := Set(pending, forecast.forecastId, PendingForecast(forecast, cycle));
    }

    /** Advances the cycle, resolves every matured forecast in order of registration, removes them. */
    method Resolve(actual: Values) returns (results: seq<FeedbackResult>)
      requires Valid()
      modifies this, calibration, planTree
      ensures Valid() && State() == Resolved(old(State()), actual)
      ensures results == ResultsNow(old(State()), actual)
    {
      ghost var before := State();
      ghost var fs := Maturing(before.pending, before.cycle + 1);
      cycle := cycle + 1;
      var resolvedIds;
      results, resolvedIds := ResolveMature(actual);
      assert results == AllResults(fs, actual);
      ghost var known := Known();
      assert known == ResolveEach(before.known, fs, actual, before.threshold);
      RemoveMature(resolvedIds);
      assert State() == Planner(before.cycle + 1, Waiting(before.pending, before.cycle + 1), known, before.threshold);
    }

    /** Resolves the matured forecasts in order of registration; they stay queued. */
    method ResolveMature(actual: Values) returns (results: seq<FeedbackResult>, resolvedIds: seq<string>)
      requires Valid()
      modifies calibration, planTree
      ensures Valid()
      ensures Known() == ResolveEach(old(Known()), Maturing(pending, cycle), actual, planTree.abandonThreshold)
      ensures results == AllResults(Maturing(pending, cycle), actual)
      ensures resolvedIds == IdsOf(Maturing(pending, cycle))
    {
      results, resolvedIds := [], [];
      ghost var done: seq<Forecast> := [];
      for i := 0 to |pending|
        invariant Valid()
        invariant Progress(pending, i, cycle, done)
        invariant Known() == ResolveEach(old(Known()), done, actual, planTree.abandonThreshold)
        invariant results == AllResults(done, actual) && resolvedIds == IdsOf(done)
      {
        ProgressStep(pending, i, cycle, done);
        var entry := pending[i].1;
        if cycle - entry.registeredCycle < entry.forecast.cycleDistance {
          continue;
        }
        ResolveEachSnoc(old(Known()), done, entry.forecast, actual, planTree.abandonThreshold);
        AllResultsSnoc(done, entry.forecast, actual);
        var now := ResolveForecast(entry.forecast, actual);
        done := done + [entry.forecast];
        results := results + now;
        resolvedIds := resolvedIds + [pending[i].0];
      }
      assert done == Maturing(pending, cycle) by { assert done + [] == done; }
    }

    method ResolveForecast(forecast: Forecast, actual: Values) returns (results: seq<FeedbackResult>)
      requires WellFiled(planTree.threads)
      modifies calibration, planTree
      ensures WellFiled(planTree.threads) && results == ResultsOf(forecast, actual)
      ensures Known() == ResolveOne(old(Known()), forecast, actual, planTree.abandonThreshold)
    {
      results := ScoreForecast(forecast, actual);
      RefreshThreads(forecast);
    }

    /** Compares every predicted field with what happened and updates its calibration record. */
    method ScoreForecast(forecast: Forecast, actual: Values) returns (results: seq<FeedbackResult>)
      modifies calibration
      ensures results == ResultsOf(forecast, actual)
      ensures calibration.records == LearnAll(old(calibration.records), ObservationsOf(results))
    {
      results := [];
      ghost var goal := ResultsOf(forecast, actual);
      for i := 0 to |forecast.predictions|
        invariant results == goal[..i]
        invariant calibration.records == LearnAll(old(calibration.records), ObservationsOf(results))
      {
        LearnOneMore(old(calibration.records), results, goal[i]);
        var result := ScoreField(forecast, forecast.predictions[i].0, forecast.predictions[i].1, actual);
        assert result == goal[i] && goal[..i + 1] == goal[..i] + [result];
        results := results + [result];
        assert calibration.records == LearnAll(old(calibration.records), ObservationsOf(results));
      }
      assert goal[..|goal|] == goal;
    }

    method ScoreField(forecast: Forecast, field: string, predicted: real, actualValues: Values)
      returns (result: FeedbackResult)
      modifies calibration
      ensures result == ResultFor(forecast, field, predicted, actualValues)
      ensures calibration.records == Learn(old(calibration.records), ObservationOf(result))
    {
      var actual := ValueOr(actualValues, field, predicted);
      var error := actual - predicted;
      var _ := calibration.Update(field, forecast.horizon, predicted, actual);
      result := FeedbackResult(forecast.forecastId, forecast.horizon, field, predicted, actual, Round6(error), true);
    }

    /** Updates the active threads linked to the forecast. */
    method RefreshThreads(forecast: Forecast)
      requires WellFiled(planTree.threads)
      modifies planTree
      ensures WellFiled(planTree.threads)
      ensures planTree.threads == Refreshed(old(planTree.threads), forecast.forecastId,
                                            NewConfidence(forecast, calibration.records), planTree.abandonThreshold)
    {
      var listed := planTree.threads;
      ghost var confidence := NewConfidence(forecast, calibration.records);
      ghost var goal := Refreshed(listed, forecast.forecastId, confidence, planTree.abandonThreshold);
      for i := 0 to |listed|
        invariant planTree.threads == Midway(listed, goal, i)
      {
        var thread := listed[i].1;
        MidwayStep(listed, goal, i);
        if thread.status.Active? && forecast.forecastId in thread.forecastIds {
          var maes := MaesOf(KeysOf(forecast.predictions), forecast.horizon, calibration.records);
          var newConfidence := RawConfidence(maes);
          var _ := planTree.UpdateConfidence(thread.threadId, newConfidence);
        }
      }
      MidwayFiled(listed, goal, |listed|);
    }

    method RemoveMature(ids: seq<string>)
      requires Valid() && ids == IdsOf(Maturing(pending, cycle))
      modifies this`pending
      ensures Valid() && pending == Waiting(old(pending), cycle)
    {
      DeleteMature(pending, cycle);
      WaitingFiled(pending, cycle);
      assert ids[0..] == ids;
      for i := 0 to |ids|
        invariant DeleteAll(pending, ids[i..]) == DeleteAll(old(pending), ids)
      {
        assert ids[i..][1..] == ids[i + 1..];
        pending := Delete(pending, ids[i]);
      }
    }
  }

  lemma LearnOneMore(records: Records, rs: seq<FeedbackResult>, r: FeedbackResult)
    ensures LearnAll(records, ObservationsOf(rs + [r]))
         == Learn(LearnAll(records, ObservationsOf(rs)), ObservationOf(r))
  {
    var os := ObservationsOf(rs + [r]);
    assert os[..|os| - 1] == ObservationsOf(rs);
  }

  lemma {:induction false} SetAt<K, V>(d: Dict<K, V>, i: nat, v: V)
    requires DistinctKeys(d) && i < |d|
    ensures Set(d, d[i].0, v) == d[i := (d[i].0, v)]
  {
    if i == 0 {
      assert d[0 := (d[0].0, v)] == [(d[0].0, v)] + d[1..];
    } else {
      SetAt(d[1..], i - 1, v);
      assert Set(d, d[i].0, v) == [d[0]] + d[1..][i - 1 := (d[i].0, v)];
    }
  }

  lemma SetFiled(pending: PendingQueue, f: Forecast, cycle: int)
    requires FiledById(pending)
    ensures FiledById(Set(pending, f.forecastId, PendingForecast(f, cycle)))
  {
    var entry := PendingForecast(f, cycle);
    SetDistinct(pending, f.forecastId, entry);
    forall i | 0 <= i < |Set(pending, f.forecastId, entry)|
      ensures Set(pending, f.forecastId, entry)[i].1.forecast.forecastId == Set(pending, f.forecastId, entry)[i].0
    {
      SetMembers(pending, f.forecastId, entry, i);
    }
  }

  lemma ReplaceThread(threads: Threads, i: nat, t: PlanThread)
    requires WellFiled(threads) && i < |threads| && t.threadId == threads[i].0
    ensures Get(threads, t.threadId) == Some(threads[i].1)
    ensures Set(threads, t.threadId, t) == threads[i := (t.threadId, t)]
    ensures WellFiled(Set(threads, t.threadId, t))
  {
    GetAt(threads, i);
    SetAt(threads, i, t);
    SetWellFiled(threads, t);
  }

  /** The thread list once its first i threads have been reassessed. */
  ghost function Midway(listed: Threads, goal: Threads, i: nat): Threads
    requires i <= |listed| == |goal|
  {
    goal[..i] + listed[i..]
  }

  ghost predicate SameIds(listed: Threads, goal: Threads) {
    && |listed| == |goal|
    && forall i | 0 <= i < |goal| :: goal[i].0 == listed[i].0 && goal[i].1.threadId == listed[i].1.threadId
  }

  lemma MidwayFiled(listed: Threads, goal: Threads, i: nat)
    requires SameIds(listed, goal) && WellFiled(listed) && i <= |listed|
    ensures WellFiled(Midway(listed, goal, i))
  {
    var m := Midway(listed, goal, i);
    forall j | 0 <= j < |m| ensures m[j].0 == listed[j].0 && m[j].1.threadId == listed[j].0 {
    }
  }

  lemma MidwayStep(listed: Threads, goal: Threads, i: nat)
    requires SameIds(listed, goal) && WellFiled(listed) && i < |listed|
    ensures Get(Midway(listed, goal, i), listed[i].1.threadId) == Some(listed[i].1)
    ensures Set(Midway(listed, goal, i), listed[i].1.threadId, goal[i].1) == Midway(listed, goal, i + 1)
    ensures goal[i] == listed[i] ==> Midway(listed, goal, i) == Midway(listed, goal, i + 1)
  {
    MidwayFiled(listed, goal, i);
    var m := Midway(listed, goal, i);
    assert m[i] == listed[i];
    ReplaceThread(m, i, goal[i].1);
    assert m[i := goal[i]] == Midway(listed, goal, i + 1);
  }

  /** The forecasts done so far and those that mature among the entries from i on make the whole. */
  ghost predicate Progress(pending: PendingQueue, i: nat, cycle: int, done: seq<Forecast>)
    requires i <= |pending|
  {
    Maturing(pending, cycle) == done + Maturing(pending[i..], cycle)
  }

  lemma ProgressStep(pending: PendingQueue, i: nat, cycle: int, done: seq<Forecast>)
    requires i < |pending| && Progress(pending, i, cycle, done)
    ensures var entry := pending[i].1;
            Progress(pending, i + 1, cycle, if entry.Mature(cycle) then done + [entry.forecast] else done)
  {
    var f, rest := pending[i].1.forecast, Maturing(pending[i + 1..], cycle);
    assert pending[i..][1..] == pending[i + 1..];
    assert done + ([f] + rest) == done + [f] + rest;
  }

  lemma {:induction false} ResolveEachSnoc(k: Knowledge, fs: seq<Forecast>, f: Forecast, actual: Values,
          threshold: real)
    ensures ResolveEach(k, fs + [f], actual, threshold)
         == ResolveOne(ResolveEach(k, fs, actual, threshold), f, actual, threshold)
    decreases fs
  {
    if fs == [] {
      assert ([] + [f])[0] == f && ([] + [f])[1..] == [];
    } else {
      assert (fs + [f])[0] == fs[0] && (fs + [f])[1..] == fs[1..] + [f];
      ResolveEachSnoc(ResolveOne(k, fs[0], actual, threshold), fs[1..], f, actual, threshold);
    }
  }

  lemma {:induction false} AllResultsSnoc(fs: seq<Forecast>, f: Forecast, actual: Values)
    ensures AllResults(fs + [f], actual) == AllResults(fs, actual) + ResultsOf(f, actual)
    ensures IdsOf(fs + [f]) == IdsOf(fs) + [f.forecastId]
  {
    if fs == [] {
      assert ([] + [f])[0] == f && ([] + [f])[1..] == [];
      assert ResultsOf(f, actual) + [] == ResultsOf(f, actual);
    } else {
      assert (fs + [f])[0] == fs[0] && (fs + [f])[1..] == fs[1..] + [f];
      AllResultsSnoc(fs[1..], f, actual);
    }
  }

  /** A result adds up: prediction plus error is what happened, to within half a unit of the sixth decimal; a
      field that was not reported counts as predicted right. */
  lemma {:induction false} ResultAddsUp(f: Forecast, actual: Values, i: nat)
    requires i < |f.predictions|
    ensures var r, p := ResultsOf(f, actual)[i], f.predictions[i];
            && r.forecastId == f.forecastId && r.horizon == f.horizon && r.field == p.0 && r.predicted == p.1
            && r.actual == (if p.0 in actual then actual[p.0] else p.1)
            && Abs(r.predicted + r.error - r.actual) <= 0.0000005
            && (p.0 !in actual ==> r.error == 0.0)
  {
    UnitOnGrid();
    Round6Identity(0.0);
  }
}
