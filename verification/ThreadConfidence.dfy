/** What confidence means: the records' mean error, for issued forecasts and for reassessed threads. */
module ThreadConfidence {
  import opened RealArith
  import opened Rounding
  import opened Sequences
  import opened Calibration
  import opened Forecasting
  import opened PlanTree
  import opened FeedbackLoop
  import opened PlannerRuns

  /** How many of the fields have a record. */
  function RecordCount(fields: seq<string>, horizon: string, records: Records): nat {
    if fields == [] then 0
    else
      var last := |fields| - 1;
      RecordCount(fields[..last], horizon, records) + if Key(fields[last], horizon) in records then 1 else 0
  }

  /** The sum of the mean absolute errors of those that have one. */
  function ErrorSum(fields: seq<string>, horizon: string, records: Records): real {
    if fields == [] then 0.0
    else
      var last, key := |fields| - 1, Key(fields[|fields| - 1], horizon);
      ErrorSum(fields[..last], horizon, records) + if key in records then records[key].mae else 0.0
  }

  /** c is one minus the mean error of the fields that have a record, and one half when none has. */
  predicate Matches(c: real, fields: seq<string>, horizon: string, records: Records) {
    var n := RecordCount(fields, horizon, records);
    if n == 0 then c == 0.5 else c * n as real + ErrorSum(fields, horizon, records) == n as real
  }

  lemma {:induction false} TotalSnoc(xs: seq<real>, x: real)
    ensures Total(xs + [x]) == Total(xs) + x
  {
    if xs != [] {
      assert (xs + [x])[1..] == xs[1..] + [x];
      TotalSnoc(xs[1..], x);
    }
  }

  lemma {:induction false} MaesSnoc(fields: seq<string>, f: string, horizon: string, records: Records)
    ensures MaesOf(fields + [f], horizon, records)
         == MaesOf(fields, horizon, records) + if Key(f, horizon) in records then [records[Key(f, horizon)].mae] else []
  {
    if fields == [] {
      assert [f][1..] == [];
    } else {
      assert (fields + [f])[0] == fields[0] && (fields + [f])[1..] == fields[1..] + [f];
      MaesSnoc(fields[1..], f, horizon, records);
      var first := MaesOf([fields[0]], horizon, records);
      assert MaesOf(fields, horizon, records) == first + MaesOf(fields[1..], horizon, records) by {
        assert [fields[0]][1..] == [] && MaesOf([], horizon, records) == [];
      }
    }
  }

  lemma {:induction false} MaesMeasured(fields: seq<string>, horizon: string, records: Records)
    ensures |MaesOf(fields, horizon, records)| == RecordCount(fields, horizon, records)
    ensures Total(MaesOf(fields, horizon, records)) == ErrorSum(fields, horizon, records)
  {
    if fields != [] {
      var n := |fields| - 1;
      var before, f := fields[..n], fields[n];
      assert fields == before + [f];
      MaesMeasured(before, horizon, records);
      MaesSnoc(before, f, horizon, records);
      if Key(f, horizon) in records {
        TotalSnoc(MaesOf(before, horizon, records), records[Key(f, horizon)].mae);
      } else {
        assert MaesOf(before, horizon, records) + [] == MaesOf(before, horizon, records);
      }
    }
  }

  lemma OneMinusMean(c: real, total: real, mean: real, n: real)
    requires n > 0.0 && mean * n == total
    ensures c == 1.0 - mean <==> c * n + total == n
  {
    ZeroFactor(c + mean - 1.0, n);
    assert (c + mean - 1.0) * n == c * n + mean * n - n;
  }

  lemma ZeroFactor(x: real, n: real)
    requires n > 0.0
    ensures x * n == 0.0 <==> x == 0.0
  {
  }

  /** The raw confidence is the one number that matches. */
  lemma {:induction false} RawConfidenceMatches(c: real, fields: seq<string>, horizon: string, records: Records)
    ensures Matches(c, fields, horizon, records) <==> c == RawConfidence(MaesOf(fields, horizon, records))
  {
    MaesMeasured(fields, horizon, records);
    var maes := MaesOf(fields, horizon, records);
    if maes != [] {
      OneMinusMean(c, Total(maes), Total(maes) / |maes| as real, |maes| as real);
    }
  }

  /** A forecast's confidence is the matching number of its fields and horizon, clamped and rounded. */
  lemma {:induction false} IssuedConfidence(h: (string, int), fields: seq<string>, current: Values, alpha: real,
                                            last: Values, records: Records, id: string, c: real)
    requires Matches(c, fields, h.0, records)
    ensures ForecastFor(h, fields, current, alpha, last, records, id).confidence == Round6(Clamp(c))
  {
    RawConfidenceMatches(c, fields, h.0, records);
  }

  // ----- Threads over one resolution

  /** The records once the forecasts have been compared with what happened. */
  function Taught(records: Records, fs: seq<Forecast>, actual: Values): Records {
    LearnAll(records, ObservationsOf(AllResults(fs, actual)))
  }

  /** c is the confidence that the k-th of the maturing forecasts gives to threads linked to it. */
  predicate Gives(records: Records, fs: seq<Forecast>, k: nat, actual: Values, c: real)
    requires k < |fs|
  {
    Matches(c, KeysOf(fs[k].predictions), fs[k].horizon, Taught(records, fs[..k + 1], actual))
  }

  predicate Linked(t: PlanThread, f: Forecast) {
    f.forecastId in t.forecastIds
  }

  lemma FirstResults(fs: seq<Forecast>, actual: Values)
    requires fs != []
    ensures AllResults(fs[..1], actual) == ResultsOf(fs[0], actual)
  {
    assert fs[..1][0] == fs[0] && fs[..1][1..] == [];
    assert AllResults([], actual) == [] && ResultsOf(fs[0], actual) + [] == ResultsOf(fs[0], actual);
  }

  lemma TaughtFirst(records: Records, fs: seq<Forecast>, actual: Values, k: nat)
    requires k < |fs|
    ensures Taught(LearnAll(records, ObservationsOf(ResultsOf(fs[0], actual))), fs[1..][..k], actual)
         == Taught(records, fs[..k + 1], actual)
  {
    var upTo, rest := fs[..k + 1], fs[1..][..k];
    assert upTo[0] == fs[0] && upTo[1..] == rest;
    LearnFromBoth(records, ResultsOf(fs[0], actual), AllResults(rest, actual));
  }

  lemma GivesLater(records: Records, fs: seq<Forecast>, k: nat, actual: Values, c: real)
    requires 0 < k < |fs|
    ensures Gives(records, fs, k, actual, c)
       <==> Gives(LearnAll(records, ObservationsOf(ResultsOf(fs[0], actual))), fs[1..], k - 1, actual, c)
  {
    TaughtFirst(records, fs, actual, k);
    assert fs[1..][..k] == fs[1..][..k - 1 + 1];
  }

  /** What the first maturing forecast does to one thread. */
  lemma FirstStep(k: Knowledge, fs: seq<Forecast>, actual: Values, threshold: real, id: string, c: real)
    requires fs != [] && Get(k.threads, id).Some? && Get(k.threads, id).value.status.Active?
    requires Gives(k.records, fs, 0, actual, c)
    ensures Get(ResolveOne(k, fs[0], actual, threshold).threads, id)
         == var t := Get(k.threads, id).value;
            Some(if Linked(t, fs[0]) then
                   t.(confidence := Round6(c), status := if c < threshold then Abandoned else Active)
                 else t)
  {
    var f, next := fs[0], ResolveOne(k, fs[0], actual, threshold);
    FirstResults(fs, actual);
    RawConfidenceMatches(c, KeysOf(f.predictions), f.horizon, next.records);
    GetRefreshed(k.threads, f.forecastId, NewConfidence(f, next.records), threshold, id);
  }

  /** A thread none of the maturing forecasts is linked to stays as it is. */
  lemma {:induction false} Unlinked(k: Knowledge, fs: seq<Forecast>, actual: Values, threshold: real, id: string)
    requires Get(k.threads, id).Some?
    requires forall j | 0 <= j < |fs| :: !Linked(Get(k.threads, id).value, fs[j])
    ensures Get(ResolveEach(k, fs, actual, threshold).threads, id) == Get(k.threads, id)
    decreases fs
  {
    if fs != [] {
      var next := ResolveOne(k, fs[0], actual, threshold);
      GetRefreshed(k.threads, fs[0].forecastId, NewConfidence(fs[0], next.records), threshold, id);
      Unlinked(next, fs[1..], actual, threshold, id);
    }
  }

  /** No earlier linked forecast abandons the thread. */
  ghost predicate StaysActive(t: PlanThread, records: Records, fs: seq<Forecast>, k: nat, actual: Values,
                              threshold: real)
    requires k <= |fs|
  {
    forall j: nat, d | j < k && Linked(t, fs[j]) && Gives(records, fs, j, actual, d) :: d >= threshold
  }

  lemma StaysActiveLater(t: PlanThread, records: Records, fs: seq<Forecast>, k: nat, actual: Values,
                         threshold: real)
    requires 0 < k <= |fs| && StaysActive(t, records, fs, k, actual, threshold)
    ensures var later := LearnAll(records, ObservationsOf(ResultsOf(fs[0], actual)));
            StaysActive(t, later, fs[1..], k - 1, actual, threshold)
  {
    var later := LearnAll(records, ObservationsOf(ResultsOf(fs[0], actual)));
    forall j: nat, d | j < k - 1 && Linked(t, fs[1..][j]) && Gives(later, fs[1..], j, actual, d)
      ensures d >= threshold
    {
      GivesLater(records, fs, j + 1, actual, d);
    }
  }

  /** The thread with the confidence that one forecast gave it, and abandoned if that is below the threshold. */
  function Judged(t: PlanThread, c: real, threshold: real): PlanThread {
    t.(confidence := Round6(c), status := if c < threshold then Abandoned else Active)
  }

  lemma JudgedFirst(k: Knowledge, fs: seq<Forecast>, actual: Values, threshold: real, id: string, c: real)
    requires Get(k.threads, id).Some? && Get(k.threads, id).value.status.Active?
    requires fs != [] && Linked(Get(k.threads, id).value, fs[0]) && Gives(k.records, fs, 0, actual, c)
    requires c < threshold || forall j | 0 < j < |fs| :: !Linked(Get(k.threads, id).value, fs[j])
    ensures Get(ResolveEach(k, fs, actual, threshold).threads, id)
         == Some(Judged(Get(k.threads, id).value, c, threshold))
  {
    var next := ResolveOne(k, fs[0], actual, threshold);
    FirstStep(k, fs, actual, threshold, id, c);
    if c < threshold {
      ResolutionKeepsInactive(next, fs[1..], actual, threshold, id);
    } else {
      Unlinked(next, fs[1..], actual, threshold, id);
    }
  }

  /** Every maturing forecast gives some confidence. */
  lemma GivenBy(records: Records, fs: seq<Forecast>, i: nat, actual: Values) returns (c: real)
    requires i < |fs|
    ensures Gives(records, fs, i, actual, c)
  {
    var fields, taught := KeysOf(fs[i].predictions), Taught(records, fs[..i + 1], actual);
    c := RawConfidence(MaesOf(fields, fs[i].horizon, taught));
    RawConfidenceMatches(c, fields, fs[i].horizon, taught);
  }

  lemma {:induction false} JudgedLast(k: Knowledge, fs: seq<Forecast>, actual: Values, threshold: real, id: string,
                                      i: nat, c: real)
    requires Get(k.threads, id).Some? && Get(k.threads, id).value.status.Active?
    requires i < |fs| && Linked(Get(k.threads, id).value, fs[i]) && Gives(k.records, fs, i, actual, c)
    requires StaysActive(Get(k.threads, id).value, k.records, fs, i, actual, threshold)
    requires c < threshold || forall j | i < j < |fs| :: !Linked(Get(k.threads, id).value, fs[j])
    ensures Get(ResolveEach(k, fs, actual, threshold).threads, id)
         == Some(Judged(Get(k.threads, id).value, c, threshold))
    decreases i
  {
    if i == 0 {
      JudgedFirst(k, fs, actual, threshold, id, c);
    } else {
      var t, next := Get(k.threads, id).value, ResolveOne(k, fs[0], actual, threshold);
      var t' := SurvivesFirst(k, fs, actual, threshold, id, i);
      GivesLater(k.records, fs, i, actual, c);
      StaysActiveLater(t, k.records, fs, i, actual, threshold);
      JudgedLast(next, fs[1..], actual, threshold, id, i - 1, c);
      assert Judged(t', c, threshold) == Judged(t, c, threshold);
    }
  }

  /** A thread that the first forecast does not abandon has at most another confidence. */
  lemma SurvivesFirst(k: Knowledge, fs: seq<Forecast>, actual: Values, threshold: real, id: string, i: nat)
    returns (t': PlanThread)
    requires Get(k.threads, id).Some? && Get(k.threads, id).value.status.Active? && 0 < i <= |fs|
    requires StaysActive(Get(k.threads, id).value, k.records, fs, i, actual, threshold)
    ensures Get(ResolveOne(k, fs[0], actual, threshold).threads, id) == Some(t')
    ensures exists x :: t' == Get(k.threads, id).value.(confidence := x)
  {
    var d := GivenBy(k.records, fs, 0, actual);
    FirstStep(k, fs, actual, threshold, id, d);
    t' := Get(ResolveOne(k, fs[0], actual, threshold).threads, id).value;
    assert t' == Get(k.threads, id).value.(confidence := t'.confidence);
  }

  /** What one resolution does to an active thread: the first linked maturing forecast whose confidence is
      below the threshold, or else the last linked one, decides its confidence; it is abandoned exactly in
      the first case. */
  lemma {:induction false} ThreadJudged(s: Planner, actual: Values, id: string, i: nat, c: real)
    requires Get(s.known.threads, id).Some? && Get(s.known.threads, id).value.status.Active?
    requires var t, fs := Get(s.known.threads, id).value, Maturing(s.pending, s.cycle + 1);
             && i < |fs| && Linked(t, fs[i]) && Gives(s.known.records, fs, i, actual, c)
             && StaysActive(t, s.known.records, fs, i, actual, s.threshold)
             && (c < s.threshold || forall j | i < j < |fs| :: !Linked(t, fs[j]))
    ensures var t := Get(s.known.threads, id).value;
            Get(Resolved(s, actual).known.threads, id)
            == Some(t.(confidence := Round6(c), status := if c < s.threshold then Abandoned else Active))
  {
    var fs := Maturing(s.pending, s.cycle + 1);
    var after := ResolveEach(s.known, fs, actual, s.threshold);
    assert Resolved(s, actual).known == after;
    JudgedLast(s.known, fs, actual, s.threshold, id, i, c);
  }

  /** A thread to which no maturing forecast is linked stays as it is. */
  lemma {:induction false} ThreadUntouched(s: Planner, actual: Values, id: string)
    requires Get(s.known.threads, id).Some?
    requires forall f | f in Maturing(s.pending, s.cycle + 1) :: !Linked(Get(s.known.threads, id).value, f)
    ensures Get(Resolved(s, actual).known.threads, id) == Get(s.known.threads, id)
  {
    var fs := Maturing(s.pending, s.cycle + 1);
    var after := ResolveEach(s.known, fs, actual, s.threshold);
    assert Resolved(s, actual).known == after;
    Unlinked(s.known, fs, actual, s.threshold, id);
  }

  // ----- Every predicted field has a record by then

  lemma {:induction false} LearnedKeys(records: Records, os: seq<Observation>, i: nat)
    requires i < |os|
    ensures Key(os[i].field, os[i].horizon) in LearnAll(records, os)
    decreases |os|
  {
    if i < |os| - 1 {
      LearnedKeys(records, os[..|os| - 1], i);
    }
  }


  lemma {:induction false} CountAll(fields: seq<string>, horizon: string, records: Records)
    requires forall i | 0 <= i < |fields| :: Key(fields[i], horizon) in records
    ensures RecordCount(fields, horizon, records) == |fields|
  {
    if fields != [] {
      CountAll(fields[..|fields| - 1], horizon, records);
    }
  }

  /** When a matured forecast reassesses its threads every one of its predicted fields has a record, so the
      mean is over all of them. */
  lemma {:induction false} AllFieldsRecorded(records: Records, fs: seq<Forecast>, i: nat, actual: Values)
    requires i < |fs|
    ensures var f := fs[i];
            RecordCount(KeysOf(f.predictions), f.horizon, Taught(records, fs[..i + 1], actual)) == |f.predictions|
  {
    var f, before := fs[i], Taught(records, fs[..i], actual);
    var os := ObservationsOf(ResultsOf(f, actual));
    assert fs[..i + 1] == fs[..i] + [f];
    AllResultsSnoc(fs[..i], f, actual);
    LearnFromBoth(records, AllResults(fs[..i], actual), ResultsOf(f, actual));
    forall j | 0 <= j < |f.predictions| ensures Key(KeysOf(f.predictions)[j], f.horizon) in LearnAll(before, os) {
      LearnedKeys(before, os, j);
      assert os[j].field == f.predictions[j].0 && os[j].horizon == f.horizon;
    }
    CountAll(KeysOf(f.predictions), f.horizon, LearnAll(before, os));
  }
}
