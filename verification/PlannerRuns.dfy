/** Safety of the planner over whole runs of registrations, resolutions and thread operations. */
module PlannerRuns {
  import opened Rounding
  import opened Sequences
  import opened Calibration
  import opened Forecasting
  import opened PlanTree
  import opened FeedbackLoop

  datatype Command =
    | Register(forecast: Forecast)
    | Resolve(actual: Values)
    | AddThread(id: string, goal: string, steps: seq<PlanStep>, confidence: real, forecastIds: seq<string>)
    | Complete(id: string)

  function WithThreads(s: Planner, threads: Threads): Planner {
    s.(known := s.known.(threads := threads))
  }

  function Step(s: Planner, c: Command): Planner {
    match c
    case Register(f) => Registered(s, f)
    case Resolve(actual) => Resolved(s, actual)
    case AddThread(id, goal, steps, confidence, forecastIds) =>
      WithThreads(s, Adding(s.known.threads, id, goal, steps, confidence, forecastIds))
    case Complete(id) => WithThreads(s, Completing(s.known.threads, id))
  }

  function Emitted(s: Planner, c: Command): seq<FeedbackResult> {
    if c.Resolve? then ResultsNow(s, c.actual) else []
  }

  function MaturedIds(s: Planner, c: Command): seq<string> {
    if c.Resolve? then IdsOf(Maturing(s.pending, s.cycle + 1)) else []
  }

  function Start(threshold: real): Planner {
    Planner(0, [], Knowledge(map[], []), threshold)
  }

  function Run(s: Planner, cmds: seq<Command>): Planner {
    if cmds == [] then s else Step(Run(s, cmds[..|cmds| - 1]), cmds[|cmds| - 1])
  }

  /** All results of a run, oldest first. */
  function Log(s: Planner, cmds: seq<Command>): seq<FeedbackResult> {
    if cmds == [] then []
    else
      var n := |cmds| - 1;
      Log(s, cmds[..n]) + Emitted(Run(s, cmds[..n]), cmds[n])
  }

  /** The ids a run resolved, oldest first. */
  function ResolvedIds(s: Planner, cmds: seq<Command>): seq<string> {
    if cmds == [] then []
    else
      var n := |cmds| - 1;
      ResolvedIds(s, cmds[..n]) + MaturedIds(Run(s, cmds[..n]), cmds[n])
  }

  function NewIds(c: Command): seq<string> {
    if c.Register? then [c.forecast.forecastId] else []
  }

  function RegisteredIds(cmds: seq<Command>): seq<string> {
    if cmds == [] then [] else RegisteredIds(cmds[..|cmds| - 1]) + NewIds(cmds[|cmds| - 1])
  }

  /** No two registrations share an id. */
  ghost predicate Fresh(cmds: seq<Command>) {
    forall i, j :: 0 <= i < j < |cmds| && cmds[i].Register? && cmds[j].Register? ==>
      cmds[i].forecast.forecastId != cmds[j].forecast.forecastId
  }

  /** The number of resolutions, which is the cycle counter's value. */
  function Cycles(cmds: seq<Command>): nat {
    if cmds == [] then 0
    else
      var n := |cmds| - 1;
      Cycles(cmds[..n]) + if cmds[n].Resolve? then 1 else 0
  }

  lemma {:induction false} CycleCounts(threshold: real, cmds: seq<Command>)
    ensures Run(Start(threshold), cmds).cycle == Cycles(cmds)
    ensures Run(Start(threshold), cmds).threshold == threshold
  {
    if cmds != [] {
      CycleCounts(threshold, cmds[..|cmds| - 1]);
    }
  }

  /** The cycle whose resolution takes up a forecast registered at cycle c. */
  function Due(f: Forecast, c: nat): int {
    c + if f.cycleDistance >= 1 then f.cycleDistance else 1
  }

  /** Every queued entry is filed under its id and was registered no later than now. */
  ghost predicate SoundQueue(s: Planner) {
    && FiledById(s.pending)
    && forall i | 0 <= i < |s.pending| :: 0 <= s.pending[i].1.registeredCycle <= s.cycle
  }

  lemma StepSound(s: Planner, c: Command)
    requires SoundQueue(s)
    ensures SoundQueue(Step(s, c))
  {
    match c
    case Register(f) =>
      SetFiled(s.pending, f, s.cycle);
      forall i | 0 <= i < |Step(s, c).pending|
        ensures 0 <= Step(s, c).pending[i].1.registeredCycle <= s.cycle
      {
        SetMembers(s.pending, f.forecastId, PendingForecast(f, s.cycle), i);
      }
    case Resolve(actual) =>
      WaitingFiled(s.pending, s.cycle + 1);
    case AddThread(_, _, _, _, _) =>
    case Complete(_) =>
  }

  lemma {:induction false} RunSound(threshold: real, cmds: seq<Command>)
    ensures SoundQueue(Run(Start(threshold), cmds))
  {
    if cmds != [] {
      RunSound(threshold, cmds[..|cmds| - 1]);
      StepSound(Run(Start(threshold), cmds[..|cmds| - 1]), cmds[|cmds| - 1]);
    }
  }

  // ----- Exactly once

  lemma {:induction false} GetWaiting(pending: PendingQueue, cycle: int, id: string)
    requires DistinctKeys(pending)
    ensures Get(Waiting(pending, cycle), id)
         == var e := Get(pending, id); if e.Some? && !e.value.Mature(cycle) then e else None
  {
    if pending != [] {
      GetWaiting(pending[1..], cycle, id);
      if pending[0].1.Mature(cycle) && pending[0].0 == id {
        assert forall i | 0 <= i < |pending[1..]| :: pending[1..][i].0 != id;
        assert Get(pending[1..], id).None?;
      } else if !pending[0].1.Mature(cycle) {
        assert Waiting(pending, cycle)[1..] == Waiting(pending[1..], cycle);
      }
    }
  }

  /** What one command does to the entry of an id it does not register. */
  lemma StepOnEntry(s: Planner, c: Command, id: string)
    requires SoundQueue(s) && (c.Register? ==> c.forecast.forecastId != id)
    ensures var e := Get(s.pending, id);
            Get(Step(s, c).pending, id)
            == if c.Resolve? && e.Some? && e.value.Mature(s.cycle + 1) then None else e
  {
    if c.Register? {
      GetSet(s.pending, c.forecast.forecastId, PendingForecast(c.forecast, s.cycle), id);
    } else if c.Resolve? {
      GetWaiting(s.pending, s.cycle + 1, id);
    }
  }

  /** A registered forecast waits, unchanged, exactly as long as its due cycle has not been reached. */
  lemma {:induction false} QueuedUntilDue(threshold: real, cmds: seq<Command>, i: nat)
    requires Fresh(cmds) && i < |cmds| && cmds[i].Register?
    ensures var f, c := cmds[i].forecast, Cycles(cmds[..i]);
            Get(Run(Start(threshold), cmds).pending, f.forecastId)
            == if Cycles(cmds) < Due(f, c) then Some(PendingForecast(f, c)) else None
    decreases |cmds|
  {
    var n := |cmds| - 1;
    var before := Run(Start(threshold), cmds[..n]);
    var f := cmds[i].forecast;
    CycleCounts(threshold, cmds[..n]);
    RunSound(threshold, cmds[..n]);
    if i == n {
      GetSet(before.pending, f.forecastId, PendingForecast(f, before.cycle), f.forecastId);
    } else {
      QueuedUntilDue(threshold, cmds[..n], i);
      assert cmds[..n][..i] == cmds[..i];
      CyclesMonotone(cmds[..n], i);
      StepOnEntry(before, cmds[n], f.forecastId);
    }
  }

  lemma {:induction false} CyclesMonotone(cmds: seq<Command>, i: nat)
    requires i <= |cmds|
    ensures Cycles(cmds[..i]) <= Cycles(cmds)
    decreases |cmds|
  {
    if i == |cmds| {
      assert cmds[..i] == cmds;
    } else {
      CyclesMonotone(cmds[..|cmds| - 1], i);
      assert cmds[..|cmds| - 1][..i] == cmds[..i];
    }
  }

  /** The results that carry the given forecast id. */
  function ResultsFor(rs: seq<FeedbackResult>, id: string): seq<FeedbackResult> {
    if rs == [] then []
    else if rs[0].forecastId == id then [rs[0]] + ResultsFor(rs[1..], id)
    else ResultsFor(rs[1..], id)
  }

  lemma {:induction false} ResultsForConcat(a: seq<FeedbackResult>, b: seq<FeedbackResult>, id: string)
    ensures ResultsFor(a + b, id) == ResultsFor(a, id) + ResultsFor(b, id)
  {
    if a == [] {
      assert a + b == b;
    } else {
      assert (a + b)[0] == a[0] && (a + b)[1..] == a[1..] + b;
      ResultsForConcat(a[1..], b, id);
      if a[0].forecastId == id {
        assert ResultsFor(a + b, id) == [a[0]] + (ResultsFor(a[1..], id) + ResultsFor(b, id));
      }
    }
  }

  lemma {:induction false} ResultsForUniform(rs: seq<FeedbackResult>, id: string, own: string)
    requires forall r | r in rs :: r.forecastId == own
    ensures ResultsFor(rs, id) == if id == own then rs else []
  {
    if rs != [] {
      ResultsForUniform(rs[1..], id, own);
    }
  }

  /** Among the results of one resolution, those of a queued forecast are its own when it matures. */
  lemma {:induction false} MaturingResults(pending: PendingQueue, cycle: int, actual: Values, id: string)
    requires FiledById(pending)
    ensures ResultsFor(AllResults(Maturing(pending, cycle), actual), id)
         == var e := Get(pending, id);
            if e.Some? && e.value.Mature(cycle) then ResultsOf(e.value.forecast, actual) else []
  {
    if pending != [] {
      var e, rest := pending[0].1, pending[1..];
      MaturingResults(rest, cycle, actual, id);
      if pending[0].0 == id {
        assert forall i | 0 <= i < |rest| :: rest[i].0 != id;
        assert Get(rest, id).None?;
      }
      if e.Mature(cycle) {
        var mature := Maturing(rest, cycle);
        assert ([e.forecast] + mature)[1..] == mature;
        ResultsForConcat(ResultsOf(e.forecast, actual), AllResults(mature, actual), id);
        ResultsForUniform(ResultsOf(e.forecast, actual), id, e.forecast.forecastId);
      }
    }
  }

  /** Among queued forecasts, those that mature next are those whose due cycle is next. */
  lemma DueNow(f: Forecast, c: nat, cycle: nat)
    requires c <= cycle
    ensures cycle < Due(f, c) && PendingForecast(f, c).Mature(cycle + 1) <==> cycle + 1 == Due(f, c)
  {
  }

  /** Exactly-once maturation: over any run with fresh ids, the resolution at position j emits for the
      forecast registered at position i its complete results, one per predicted field in order, when j
      is later and reaches the due cycle, and nothing otherwise. */
  lemma {:induction false} ExactlyOnce(threshold: real, cmds: seq<Command>, i: nat, j: nat)
    requires Fresh(cmds) && i < |cmds| && j < |cmds| && cmds[i].Register? && cmds[j].Resolve?
    ensures var f := cmds[i].forecast;
            ResultsFor(Emitted(Run(Start(threshold), cmds[..j]), cmds[j]), f.forecastId)
            == if i < j && Cycles(cmds[..j]) + 1 == Due(f, Cycles(cmds[..i])) then ResultsOf(f, cmds[j].actual) else []
  {
    var f, c := cmds[i].forecast, Cycles(cmds[..i]);
    var s := Run(Start(threshold), cmds[..j]);
    CycleCounts(threshold, cmds[..j]);
    RunSound(threshold, cmds[..j]);
    MaturingResults(s.pending, s.cycle + 1, cmds[j].actual, f.forecastId);
    PendingBefore(threshold, cmds, i, j);
    if i < j {
      assert cmds[..j][..i] == cmds[..i];
      CyclesMonotone(cmds[..j], i);
      DueNow(f, c, s.cycle);
    }
  }

  /** What is queued under the id of the i-th command before the j-th one. */
  lemma PendingBefore(threshold: real, cmds: seq<Command>, i: nat, j: nat)
    requires Fresh(cmds) && i < |cmds| && j < |cmds| && cmds[i].Register?
    ensures var f, c := cmds[i].forecast, Cycles(cmds[..i]);
            Get(Run(Start(threshold), cmds[..j]).pending, f.forecastId)
            == if i < j && Cycles(cmds[..j]) < Due(f, c) then Some(PendingForecast(f, c)) else None
  {
    if i < j {
      QueuedUntilDue(threshold, cmds[..j], i);
      assert cmds[..j][..i] == cmds[..i];
    } else {
      NotYetQueued(threshold, cmds[..j], cmds[i].forecast.forecastId);
    }
  }

  lemma {:induction false} NotYetQueued(threshold: real, cmds: seq<Command>, id: string)
    requires forall k | 0 <= k < |cmds| && cmds[k].Register? :: cmds[k].forecast.forecastId != id
    ensures Get(Run(Start(threshold), cmds).pending, id).None?
  {
    if cmds != [] {
      var n := |cmds| - 1;
      var before := Run(Start(threshold), cmds[..n]);
      NotYetQueued(threshold, cmds[..n], id);
      RunSound(threshold, cmds[..n]);
      StepOnEntry(before, cmds[n], id);
    }
  }

  // ----- Conservation of ids

  lemma {:induction false} QueueSplits(pending: PendingQueue, cycle: int)
    requires FiledById(pending)
    ensures multiset(KeysOf(pending)) == multiset(IdsOf(Maturing(pending, cycle)))
         + multiset(KeysOf(Waiting(pending, cycle)))
  {
    if pending != [] {
      var rest := pending[1..];
      QueueSplits(rest, cycle);
      assert KeysOf(pending) == [pending[0].0] + KeysOf(rest);
      if pending[0].1.Mature(cycle) {
        assert IdsOf(Maturing(pending, cycle)) == [pending[0].0] + IdsOf(Maturing(rest, cycle));
      } else {
        assert KeysOf(Waiting(pending, cycle)) == [pending[0].0] + KeysOf(Waiting(rest, cycle));
      }
    }
  }

  lemma RegisterConserves(pending: PendingQueue, id: string, entry: PendingForecast)
    requires Get(pending, id).None?
    ensures multiset(KeysOf(Set(pending, id, entry))) == multiset(KeysOf(pending)) + multiset([id])
  {
    SetShape(pending, id, entry);
    assert KeysOf(Set(pending, id, entry)) == KeysOf(pending) + [id];
  }

  lemma StepConserves(s: Planner, c: Command)
    requires FiledById(s.pending)
    requires c.Register? ==> Get(s.pending, c.forecast.forecastId).None?
    ensures multiset(KeysOf(s.pending)) + multiset(NewIds(c))
         == multiset(KeysOf(Step(s, c).pending)) + multiset(MaturedIds(s, c))
  {
    var after := Step(s, c).pending;
    if c.Register? {
      assert after == Set(s.pending, c.forecast.forecastId, PendingForecast(c.forecast, s.cycle));
      RegisterConserves(s.pending, c.forecast.forecastId, PendingForecast(c.forecast, s.cycle));
    } else if c.Resolve? {
      assert after == Waiting(s.pending, s.cycle + 1);
      QueueSplits(s.pending, s.cycle + 1);
    } else {
      assert after == s.pending;
    }
  }

  lemma Rebalance(registered: multiset<string>, queued: multiset<string>, resolved: multiset<string>,
                  added: multiset<string>, queued': multiset<string>, matured: multiset<string>)
    requires registered == queued + resolved && queued + added == queued' + matured
    ensures registered + added == queued' + (resolved + matured)
  {
    assert registered + added == queued + added + resolved;
  }

  /** Conservation: registered ids are always the disjoint union of pending and resolved ones. Stated on
      multisets, so with fresh ids nothing is resolved twice or both pending and resolved. */
  lemma {:induction false} IdsConserved(threshold: real, cmds: seq<Command>)
    requires Fresh(cmds)
    ensures multiset(RegisteredIds(cmds))
         == multiset(KeysOf(Run(Start(threshold), cmds).pending)) + multiset(ResolvedIds(Start(threshold), cmds))
    decreases |cmds|
  {
    if cmds != [] {
      var n := |cmds| - 1;
      var before := Run(Start(threshold), cmds[..n]);
      IdsConserved(threshold, cmds[..n]);
      FreshIdNotQueued(threshold, cmds);
      StepConserves(before, cmds[n]);
      var resolved := ResolvedIds(Start(threshold), cmds[..n]);
      Rebalance(multiset(RegisteredIds(cmds[..n])), multiset(KeysOf(before.pending)), multiset(resolved),
                multiset(NewIds(cmds[n])), multiset(KeysOf(Step(before, cmds[n]).pending)),
                    multiset(MaturedIds(before, cmds[n])));
    }
  }

  lemma FreshIdNotQueued(threshold: real, cmds: seq<Command>)
    requires Fresh(cmds) && cmds != []
    ensures var n := |cmds| - 1;
            var before := Run(Start(threshold), cmds[..n]);
            && FiledById(before.pending)
            && (cmds[n].Register? ==> Get(before.pending, cmds[n].forecast.forecastId).None?)
  {
    var n := |cmds| - 1;
    RunSound(threshold, cmds[..n]);
    if cmds[n].Register? {
      NotYetQueued(threshold, cmds[..n], cmds[n].forecast.forecastId);
    }
  }

  lemma {:induction false} UnusedId(cmds: seq<Command>, id: string)
    requires forall k | 0 <= k < |cmds| && cmds[k].Register? :: cmds[k].forecast.forecastId != id
    ensures id !in RegisteredIds(cmds)
  {
    if cmds != [] {
      UnusedId(cmds[..|cmds| - 1], id);
    }
  }

  lemma {:induction false} RegisteredOnce(cmds: seq<Command>, id: string)
    requires Fresh(cmds)
    ensures multiset(RegisteredIds(cmds))[id] <= 1
  {
    if cmds != [] {
      var n := |cmds| - 1;
      RegisteredOnce(cmds[..n], id);
      if cmds[n].Register? && cmds[n].forecast.forecastId == id {
        UnusedId(cmds[..n], id);
      }
    }
  }

  /** With fresh ids no id is resolved twice, and none is both pending and resolved. */
  lemma {:induction false} PendingAndResolvedDisjoint(threshold: real, cmds: seq<Command>, id: string)
    requires Fresh(cmds)
    ensures multiset(KeysOf(Run(Start(threshold), cmds).pending))[id]
          + multiset(ResolvedIds(Start(threshold), cmds))[id] <= 1
  {
    IdsConserved(threshold, cmds);
    RegisteredOnce(cmds, id);
  }

  // ----- Calibration along a run

  lemma LearnFromBoth(records: Records, a: seq<FeedbackResult>, b: seq<FeedbackResult>)
    ensures LearnAll(records, ObservationsOf(a + b))
         == LearnAll(LearnAll(records, ObservationsOf(a)), ObservationsOf(b))
  {
    assert ObservationsOf(a + b) == ObservationsOf(a) + ObservationsOf(b);
    LearnAllConcat(records, ObservationsOf(a), ObservationsOf(b));
  }

  lemma {:induction false} ResolveEachLearns(k: Knowledge, fs: seq<Forecast>, actual: Values, threshold: real)
    ensures ResolveEach(k, fs, actual, threshold).records == LearnAll(k.records, ObservationsOf(AllResults(fs, actual)))
    decreases fs
  {
    if fs != [] {
      ResolveEachLearns(ResolveOne(k, fs[0], actual, threshold), fs[1..], actual, threshold);
      LearnFromBoth(k.records, ResultsOf(fs[0], actual), AllResults(fs[1..], actual));
    }
  }

  lemma ResolvedLearns(s: Planner, actual: Values)
    ensures Resolved(s, actual).known.records == LearnAll(s.known.records, ObservationsOf(ResultsNow(s, actual)))
  {
    var mature := Maturing(s.pending, s.cycle + 1);
    var after, rs := ResolveEach(s.known, mature, actual, s.threshold), AllResults(mature, actual);
    assert Resolved(s, actual).known == after && ResultsNow(s, actual) == rs;
    ResolveEachLearns(s.known, mature, actual, s.threshold);
    assert after.records == LearnAll(s.known.records, ObservationsOf(rs));
  }

  lemma StepLearns(s: Planner, c: Command)
    ensures Step(s, c).known.records == LearnAll(s.known.records, ObservationsOf(Emitted(s, c)))
  {
    if c.Resolve? {
      ResolvedLearns(s, c.actual);
    } else {
      assert ObservationsOf(Emitted(s, c)) == [];
    }
  }

  /** The calibration records of a run are what its results teach, in order. */
  lemma {:induction false} RecordsAreLearned(threshold: real, cmds: seq<Command>)
    ensures Run(Start(threshold), cmds).known.records == LearnAll(map[], ObservationsOf(Log(Start(threshold), cmds)))
  {
    if cmds != [] {
      var n := |cmds| - 1;
      var before := Run(Start(threshold), cmds[..n]);
      RecordsAreLearned(threshold, cmds[..n]);
      StepLearns(before, cmds[n]);
      LearnFromBoth(map[], Log(Start(threshold), cmds[..n]), Emitted(before, cmds[n]));
    }
  }

  /** The number of results filed under a key. */
  function CountFor(rs: seq<FeedbackResult>, key: string): nat {
    if rs == [] then 0
    else
      var n := |rs| - 1;
      CountFor(rs[..n], key) + if Key(rs[n].field, rs[n].horizon) == key then 1 else 0
  }

  lemma {:induction false} CountIsErrors(rs: seq<FeedbackResult>, key: string)
    ensures |ErrorsFor(ObservationsOf(rs), key)| == CountFor(rs, key)
  {
    if rs != [] {
      var n := |rs| - 1;
      CountIsErrors(rs[..n], key);
      assert ObservationsOf(rs)[..n] == ObservationsOf(rs[..n]);
    }
  }

  /** Each record's sample count is exactly the number of results emitted under its key, and its means
      obey the drift bound with respect to those results. */
  lemma {:induction false} SampleCountIsResults(threshold: real, cmds: seq<Command>, key: string)
    ensures var records := Run(Start(threshold), cmds).known.records;
            var rs := Log(Start(threshold), cmds);
            && (key in records <==> CountFor(rs, key) > 0)
            && (key in records ==> records[key].sampleCount == CountFor(rs, key))
            && (key in records ==> Tracks(records[key], ErrorsFor(ObservationsOf(rs), key)))
  {
    var rs := Log(Start(threshold), cmds);
    RecordsAreLearned(threshold, cmds);
    StoreTracks(ObservationsOf(rs), key);
    CountIsErrors(rs, key);
  }

  // ----- Plan threads along a run

  /** Thread ids are fresh and only active threads are completed. */
  predicate Permitted(s: Planner, c: Command) {
    match c
    case AddThread(id, _, _, _, _) => Get(s.known.threads, id).None?
    case Complete(id) => var t := Get(s.known.threads, id); t.Some? && t.value.status.Active?
    case Register(_) => true
    case Resolve(_) => true
  }

  ghost predicate Inactive(threads: Threads, id: string) {
    Get(threads, id).Some? && !Get(threads, id).value.status.Active?
  }

  lemma {:induction false} GetRefreshed(threads: Threads, forecastId: string, confidence: real,
          threshold: real, id: string)
    ensures Get(Refreshed(threads, forecastId, confidence, threshold), id)
         == var t := Get(threads, id); if t.None? then None
             else Some(RefreshedThread(t.value, forecastId, confidence, threshold))
  {
    if threads != [] {
      GetRefreshed(threads[1..], forecastId, confidence, threshold, id);
      assert Refreshed(threads, forecastId, confidence, threshold)[1..]
          == Refreshed(threads[1..], forecastId, confidence, threshold);
    }
  }

  /** Resolving any list of forecasts leaves every thread that is not active as it is. Since the list is
      arbitrary this covers a thread abandoned by an earlier forecast of the same resolution. */
  lemma {:induction false} ResolutionKeepsInactive(k: Knowledge, fs: seq<Forecast>, actual: Values,
          threshold: real, id: string)
    requires Inactive(k.threads, id)
    ensures Get(ResolveEach(k, fs, actual, threshold).threads, id) == Get(k.threads, id)
    decreases fs
  {
    if fs != [] {
      var next := ResolveOne(k, fs[0], actual, threshold);
      GetRefreshed(k.threads, fs[0].forecastId, NewConfidence(fs[0], next.records), threshold, id);
      ResolutionKeepsInactive(next, fs[1..], actual, threshold, id);
    }
  }

  /** A resolution splits at any point: the later forecasts start from what the earlier ones left. */
  lemma {:induction false} ResolutionSplits(k: Knowledge, a: seq<Forecast>, b: seq<Forecast>, actual: Values,
          threshold: real)
    ensures ResolveEach(k, a + b, actual, threshold)
         == ResolveEach(ResolveEach(k, a, actual, threshold), b, actual, threshold)
    decreases a
  {
    if a == [] {
      assert a + b == b;
    } else {
      assert (a + b)[1..] == a[1..] + b;
      ResolutionSplits(ResolveOne(k, a[0], actual, threshold), a[1..], b, actual, threshold);
    }
  }

  lemma {:induction false} AbandonedWithinResolution(k: Knowledge, a: seq<Forecast>, b: seq<Forecast>,
          actual: Values, threshold: real, id: string)
    ensures var halfway, after := ResolveEach(k, a, actual, threshold), ResolveEach(k, a + b, actual, threshold);
            Inactive(halfway.threads, id) ==> Get(after.threads, id) == Get(halfway.threads, id)
  {
    var halfway := ResolveEach(k, a, actual, threshold);
    ResolutionSplits(k, a, b, actual, threshold);
    if Inactive(halfway.threads, id) {
      ResolutionKeepsInactive(halfway, b, actual, threshold, id);
    }
  }

  ghost predicate AllPermitted(s: Planner, cmds: seq<Command>) {
    forall i | 0 <= i < |cmds| :: Permitted(Run(s, cmds[..i]), cmds[i])
  }

  lemma StepKeepsInactive(s: Planner, c: Command, id: string)
    requires Permitted(s, c) && Inactive(s.known.threads, id)
    ensures Get(Step(s, c).known.threads, id) == Get(s.known.threads, id)
  {
    if c.Resolve? {
      ResolvingKeepsInactive(s, c.actual, id);
    } else if c.AddThread? {
      AddingKeepsInactive(s, c, id);
    } else if c.Complete? {
      CompletingKeepsInactive(s.known.threads, c.id, id);
    }
  }

  lemma ResolvingKeepsInactive(s: Planner, actual: Values, id: string)
    requires Inactive(s.known.threads, id)
    ensures Get(Resolved(s, actual).known.threads, id) == Get(s.known.threads, id)
  {
    var fs := Maturing(s.pending, s.cycle + 1);
    var after := ResolveEach(s.known, fs, actual, s.threshold);
    assert Resolved(s, actual).known == after;
    ResolutionKeepsInactive(s.known, fs, actual, s.threshold, id);
    assert Get(after.threads, id) == Get(s.known.threads, id);
  }

  lemma AddingKeepsInactive(s: Planner, c: Command, id: string)
    requires c.AddThread? && Get(s.known.threads, c.id).None? && Inactive(s.known.threads, id)
    ensures Get(Step(s, c).known.threads, id) == Get(s.known.threads, id)
  {
    var t := PlanThread(c.id, c.goal, c.steps, Active, Round6(c.confidence), c.forecastIds);
    GetSet(s.known.threads, c.id, t, id);
  }

  lemma CompletingKeepsInactive(threads: Threads, cid: string, id: string)
    requires Inactive(threads, id) && Get(threads, cid).Some? && Get(threads, cid).value.status.Active?
    ensures Get(Completing(threads, cid), id) == Get(threads, id)
  {
    assert cid != id;
    GetSet(threads, cid, Get(threads, cid).value.(status := Completed), id);
  }

  /** Completed and abandoned are terminal: whatever permitted commands follow, the thread, its
      confidence included, stays exactly as it was when it stopped being active. */
  lemma {:induction false} TerminalIsTerminal(s: Planner, cmds: seq<Command>, id: string)
    requires Inactive(s.known.threads, id)
    requires AllPermitted(s, cmds)
    ensures Get(Run(s, cmds).known.threads, id) == Get(s.known.threads, id)
    decreases |cmds|
  {
    if cmds != [] {
      var n := |cmds| - 1;
      assert forall i | 0 <= i < n :: cmds[..n][..i] == cmds[..i];
      TerminalIsTerminal(s, cmds[..n], id);
      assert Permitted(Run(s, cmds[..n]), cmds[n]);
      StepKeepsInactive(Run(s, cmds[..n]), cmds[n], id);
    }
  }

  /** Every active thread's stored confidence is at or above the threshold. */
  ghost predicate Gated(threads: Threads, threshold: real) {
    forall i | 0 <= i < |threads| && threads[i].1.status.Active? :: threads[i].1.confidence >= threshold
  }

  /** Rounding does not take the threshold itself below it. */
  predicate Holds(threshold: real) {
    Round6(threshold) >= threshold
  }

  lemma RoundedAtLeast(threshold: real, confidence: real)
    requires Holds(threshold) && confidence >= threshold
    ensures Round6(confidence) >= threshold
  {
    Round6Monotone(threshold, confidence);
  }

  lemma ReassessedGated(t: PlanThread, confidence: real, threshold: real)
    requires Holds(threshold)
    ensures Reassessed(t, confidence, threshold).status.Active? ==>
              Reassessed(t, confidence, threshold).confidence >= threshold
  {
    if confidence >= threshold {
      RoundedAtLeast(threshold, confidence);
    }
  }

  lemma {:induction false} ResolutionGated(k: Knowledge, fs: seq<Forecast>, actual: Values, threshold: real)
    requires Holds(threshold) && Gated(k.threads, threshold)
    ensures Gated(ResolveEach(k, fs, actual, threshold).threads, threshold)
    decreases fs
  {
    if fs != [] {
      var next := ResolveOne(k, fs[0], actual, threshold);
      var confidence := NewConfidence(fs[0], next.records);
      forall i | 0 <= i < |next.threads| && next.threads[i].1.status.Active?
        ensures next.threads[i].1.confidence >= threshold
      {
        ReassessedGated(k.threads[i].1, confidence, threshold);
      }
      ResolutionGated(next, fs[1..], actual, threshold);
    }
  }

  lemma SetGated(threads: Threads, id: string, t: PlanThread, threshold: real)
    requires Gated(threads, threshold) && (t.status.Active? ==> t.confidence >= threshold)
    ensures Gated(Set(threads, id, t), threshold)
  {
    forall i | 0 <= i < |Set(threads, id, t)| && Set(threads, id, t)[i].1.status.Active?
      ensures Set(threads, id, t)[i].1.confidence >= threshold
    {
      SetMembers(threads, id, t, i);
    }
  }

  lemma ResolvedGated(s: Planner, actual: Values)
    requires Holds(s.threshold) && Gated(s.known.threads, s.threshold)
    ensures Gated(Resolved(s, actual).known.threads, s.threshold)
  {
    var fs := Maturing(s.pending, s.cycle + 1);
    var after := ResolveEach(s.known, fs, actual, s.threshold);
    assert Resolved(s, actual).known == after;
    ResolutionGated(s.known, fs, actual, s.threshold);
    assert Gated(after.threads, s.threshold);
  }

  lemma StepGated(s: Planner, c: Command)
    requires Holds(s.threshold) && Gated(s.known.threads, s.threshold)
    requires c.AddThread? ==> c.confidence >= s.threshold
    ensures Gated(Step(s, c).known.threads, s.threshold)
  {
    if c.Resolve? {
      ResolvedGated(s, c.actual);
    } else if c.AddThread? {
      RoundedAtLeast(s.threshold, c.confidence);
      var t := PlanThread(c.id, c.goal, c.steps, Active, Round6(c.confidence), c.forecastIds);
      SetGated(s.known.threads, c.id, t, s.threshold);
    } else if c.Complete? {
      var t := Get(s.known.threads, c.id);
      if t.Some? {
        SetGated(s.known.threads, c.id, t.value.(status := Completed), s.threshold);
      }
    }
  }

  /** Every thread of the run starts at or above the threshold. */
  ghost predicate StartsAbove(cmds: seq<Command>, threshold: real) {
    forall c | c in cmds && c.AddThread? :: c.confidence >= threshold
  }

  lemma {:induction false} RunGated(threshold: real, cmds: seq<Command>)
    requires Holds(threshold) && StartsAbove(cmds, threshold)
    ensures Gated(Run(Start(threshold), cmds).known.threads, threshold)
  {
    if cmds != [] {
      var n := |cmds| - 1;
      RunGated(threshold, cmds[..n]);
      CycleCounts(threshold, cmds[..n]);
      assert cmds[n] in cmds;
      StepGated(Run(Start(threshold), cmds[..n]), cmds[n]);
    }
  }

  lemma OneThread(threshold: real, cmds: seq<Command>)
    requires cmds == [AddThread("t", "", [], threshold, [])]
    ensures Gated(Run(Start(threshold), cmds).known.threads, threshold) <==> Holds(threshold)
  {
    var t := PlanThread("t", "", [], Active, Round6(threshold), []);
    assert cmds[..0] == [] && Run(Start(threshold), cmds) == Step(Start(threshold), cmds[0]);
    var threads := Run(Start(threshold), cmds).known.threads;
    assert threads == [("t", t)];
    assert threads[0].1.status.Active?;
  }

  /** Every active thread is at or above the threshold in every state reachable with threads that start
      there, exactly when rounding does not take the threshold below itself; so on the six-decimal grid. */
  lemma {:induction false} ActiveAboveThreshold(threshold: real)
    ensures (forall cmds ::
               StartsAbove(cmds, threshold) ==> Gated(Run(Start(threshold), cmds).known.threads, threshold))
       <==> Holds(threshold)
    ensures OnGrid6(threshold) ==> Holds(threshold)
  {
    if Holds(threshold) {
      forall cmds | StartsAbove(cmds, threshold)
        ensures Gated(Run(Start(threshold), cmds).known.threads, threshold)
      {
        RunGated(threshold, cmds);
      }
    } else {
      var cmds := [AddThread("t", "", [], threshold, [])];
      OneThread(threshold, cmds);
      assert StartsAbove(cmds, threshold);
    }
    if OnGrid6(threshold) {
      Round6Identity(threshold);
    }
  }

  /** Rounding takes c to th exactly when th is on the grid and c is closer than half a unit, or half a unit
      away while th is an even number of units. */
  lemma RoundsTo(c: real, th: real)
    requires c < th
    ensures Round6(c) == th <==>
              OnGrid6(th) && (th - c < 0.0000005 || (th - c == 0.0000005 && (th * 1000000.0).Floor % 2 == 0))
  {
    Round6OnGrid(c);
    if OnGrid6(th) {
      var k := (th * 1000000.0).Floor;
      assert th == k as real / 1000000.0;
      assert IsNearestEven(c * 1000000.0, k) <==> th - c < 0.0000005 || (th - c == 0.0000005 && k % 2 == 0);
      if IsNearestEven(c * 1000000.0, k) {
        NearestUnique(c * 1000000.0, k);
      }
    }
  }

  /** The gate compares before rounding: every confidence below the threshold abandons the thread, and the
      thread then shows the threshold itself exactly when the confidence rounds to it. */
  lemma {:induction false} AbandonedMayShowThreshold(t: PlanThread, c: real, th: real)
    requires c < th
    ensures Reassessed(t, c, th).status.Abandoned?
    ensures Reassessed(t, c, th).confidence == th <==>
              OnGrid6(th) && (th - c < 0.0000005 || (th - c == 0.0000005 && (th * 1000000.0).Floor % 2 == 0))
  {
    RoundsTo(c, th);
  }
}
