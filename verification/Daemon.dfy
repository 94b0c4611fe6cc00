/** One daemon cycle: generate, register all horizons, resolve once; and the length of the queue it keeps. */
module Daemon {
  import opened Sequences
  import opened Calibration
  import opened Forecasting
  import opened FeedbackLoop
  import opened PlannerRuns

  datatype WorldSnapshot = WorldSnapshot(nodeHealth: Values, systemHealthRatio: real)

  function CurrentValues(snapshot: Option<WorldSnapshot>): Values {
    if snapshot.None? then map[]
    else snapshot.value.nodeHealth["system_health_ratio" := snapshot.value.systemHealthRatio]
  }

  function RegisterEach(s: Planner, fs: seq<Forecast>): Planner
    decreases fs
  {
    if fs == [] then s else RegisterEach(Registered(s, fs[0]), fs[1..])
  }

  /** The planner after a cycle that issued these forecasts and saw these values. */
  function AfterCycle(s: Planner, fs: seq<Forecast>, current: Values): Planner {
    Resolved(RegisterEach(s, fs), current)
  }

  /** The planning part of a cycle; the other modules do not touch the planner. */
  class CycleRunner {
    const forecastGenerator: ForecastGenerator?
    const feedbackLoop: ForecastFeedbackLoop?
    const calibrationStore: CalibrationStore

    constructor (g: ForecastGenerator?, l: ForecastFeedbackLoop?, c: CalibrationStore)
      ensures forecastGenerator == g && feedbackLoop == l && calibrationStore == c
    {
      forecastGenerator := g;
      feedbackLoop := l;
      calibrationStore := c;
    }

    ghost predicate Valid()
      reads this, forecastGenerator, feedbackLoop, if feedbackLoop != null then {feedbackLoop.planTree} else {}
    {
      && (forecastGenerator != null ==> HasHorizons(forecastGenerator.lastPredictions))
      && (feedbackLoop != null ==> feedbackLoop.Valid())
    }

    /** Forecasts and results of the modules that are present. A missing generator issues no forecast, a
        missing loop registers and resolves nothing. */
    method Run(snapshot: Option<WorldSnapshot>, ids: seq<string>)
      returns (forecasts: Option<seq<Forecast>>, results: Option<seq<FeedbackResult>>)
      requires Valid() && |ids| == |HORIZONS|
      modifies forecastGenerator, feedbackLoop
      modifies if feedbackLoop != null then {feedbackLoop.calibration, feedbackLoop.planTree} else {}
      ensures Valid()
      ensures forecasts.Some? <==> forecastGenerator != null
      ensures results.Some? <==> feedbackLoop != null
      ensures forecastGenerator != null ==>
                && forecasts.value == Forecasts(forecastGenerator.fields, forecastGenerator.alpha,
                                                old(forecastGenerator.lastPredictions), CurrentValues(snapshot),
                                                old(calibrationStore.records), ids, |HORIZONS|)
                && forecastGenerator.lastPredictions
                   == AdvancedHistory(forecastGenerator.fields, forecastGenerator.alpha,
                                      old(forecastGenerator.lastPredictions), CurrentValues(snapshot), |HORIZONS|)
      ensures feedbackLoop != null ==>
                var issued := if forecasts.Some? then forecasts.value else [];
                && feedbackLoop.State() == AfterCycle(old(feedbackLoop.State()), issued, CurrentValues(snapshot))
                && results.value == ResultsNow(RegisterEach(old(feedbackLoop.State()), issued), CurrentValues(snapshot))
    {
      forecasts, results := None, None;
      var currentValues := CurrentValues(snapshot);
      var issued: seq<Forecast> := [];
      if forecastGenerator != null {
        issued := forecastGenerator.Generate(currentValues, calibrationStore, ids);
        forecasts := Some(issued);
        if feedbackLoop != null {
          RegisterAll(issued);
        }
      }
      if feedbackLoop != null {
        var now := feedbackLoop.Resolve(currentValues);
        results := Some(now);
      }
    }

    method RegisterAll(forecasts: seq<Forecast>)
      requires feedbackLoop != null && feedbackLoop.Valid()
      modifies feedbackLoop
      ensures feedbackLoop.Valid()
      ensures feedbackLoop.State() == RegisterEach(old(feedbackLoop.State()), forecasts)
    {
      assert forecasts[0..] == forecasts;
      for i := 0 to |forecasts|
        invariant feedbackLoop.Valid()
        invariant RegisterEach(feedbackLoop.State(), forecasts[i..])
             == RegisterEach(old(feedbackLoop.State()), forecasts)
      {
        assert forecasts[i..][1..] == forecasts[i + 1..];
        feedbackLoop.Register(forecasts[i]);
      }
    }
  }

  // ----- Cycles as commands

  datatype CycleInput = CycleInput(short: Forecast, medium: Forecast, long: Forecast, current: Values) {
    /** The distances the three horizons always have. */
    predicate AtHorizons() {
      short.cycleDistance == 1 && medium.cycleDistance == 5 && long.cycleDistance == 20
    }
  }

  function CycleCommands(c: CycleInput): seq<Command> {
    [Register(c.short), Register(c.medium), Register(c.long), Resolve(c.current)]
  }

  function DaemonCommands(cycles: seq<CycleInput>): seq<Command> {
    if cycles == [] then []
    else DaemonCommands(cycles[..|cycles| - 1]) + CycleCommands(cycles[|cycles| - 1])
  }

  lemma RunSnoc(s: Planner, cmds: seq<Command>, c: Command)
    ensures Run(s, cmds + [c]) == Step(Run(s, cmds), c)
  {
    assert (cmds + [c])[..|cmds + [c]| - 1] == cmds;
  }

  /** A cycle of the daemon is the run of its four commands. */
  lemma {:induction false} CycleIsRun(s: Planner, cmds: seq<Command>, c: CycleInput)
    ensures Run(s, cmds + CycleCommands(c)) == AfterCycle(Run(s, cmds), [c.short, c.medium, c.long], c.current)
  {
    var one := cmds + [Register(c.short)];
    var two := one + [Register(c.medium)];
    var three := two + [Register(c.long)];
    RunSnoc(s, cmds, Register(c.short));
    RunSnoc(s, one, Register(c.medium));
    RunSnoc(s, two, Register(c.long));
    RunSnoc(s, three, Resolve(c.current));
    assert cmds + CycleCommands(c) == three + [Resolve(c.current)];
    RegisterThree(Run(s, cmds), c.short, c.medium, c.long);
  }

  lemma RegisterThree(s: Planner, a: Forecast, b: Forecast, c: Forecast)
    ensures RegisterEach(s, [a, b, c]) == Registered(Registered(Registered(s, a), b), c)
  {
    assert [a, b, c][1..] == [b, c] && [b, c][1..] == [c] && [c][1..] == [];
    assert RegisterEach(s, [a, b, c]) == RegisterEach(Registered(s, a), [b, c]);
    assert RegisterEach(Registered(s, a), [b, c]) == RegisterEach(Registered(Registered(s, a), b), [c]);
  }

  // ----- How many registrations are still live

  /** Registrations whose due cycle is later than t. */
  function Live(cmds: seq<Command>, t: int): nat {
    if cmds == [] then 0
    else
      var n := |cmds| - 1;
      Live(cmds[..n], t)
      + if cmds[n].Register? && Due(cmds[n].forecast, Cycles(cmds[..n])) > t then 1 else 0
  }

  ghost predicate DueLater(e: PendingForecast, t: int) {
    e.registeredCycle >= 0 && Due(e.forecast, e.registeredCycle) > t
  }

  ghost function CountDue(pending: PendingQueue, t: int): nat {
    if pending == [] then 0 else (if DueLater(pending[0].1, t) then 1 else 0) + CountDue(pending[1..], t)
  }

  lemma {:induction false} CountDueConcat(a: PendingQueue, b: PendingQueue, t: int)
    ensures CountDue(a + b, t) == CountDue(a, t) + CountDue(b, t)
  {
    if a == [] {
      assert a + b == b;
    } else {
      assert (a + b)[0] == a[0] && (a + b)[1..] == a[1..] + b;
      CountDueConcat(a[1..], b, t);
    }
  }

  /** What a resolution removes was due by the cycle it reached. */
  lemma {:induction false} CountDueWaiting(pending: PendingQueue, cycle: int, t: int)
    requires t >= cycle
    requires forall i | 0 <= i < |pending| :: 0 <= pending[i].1.registeredCycle < cycle
    ensures CountDue(Waiting(pending, cycle), t) == CountDue(pending, t)
  {
    if pending != [] {
      CountDueWaiting(pending[1..], cycle, t);
      if !pending[0].1.Mature(cycle) {
        assert Waiting(pending, cycle)[1..] == Waiting(pending[1..], cycle);
      }
    }
  }

  lemma RegisterCounts(pending: PendingQueue, id: string, entry: PendingForecast, t: int)
    requires Get(pending, id).None?
    ensures CountDue(Set(pending, id, entry), t) == CountDue(pending, t) + if DueLater(entry, t) then 1 else 0
  {
    SetShape(pending, id, entry);
    CountDueConcat(pending, [(id, entry)], t);
    assert [(id, entry)][1..] == [];
  }

  /** What one command changes, at a time not before the cycle it leads to. */
  lemma StepCounts(s: Planner, c: Command, t: int)
    requires SoundQueue(s) && (c.Register? ==> Get(s.pending, c.forecast.forecastId).None?)
    requires c.Resolve? ==> t >= s.cycle + 1
    ensures CountDue(Step(s, c).pending, t)
         == CountDue(s.pending, t) + if c.Register? && Due(c.forecast, s.cycle) > t then 1 else 0
  {
    var after := Step(s, c).pending;
    if c.Register? {
      var entry := PendingForecast(c.forecast, s.cycle);
      assert after == Set(s.pending, c.forecast.forecastId, entry);
      RegisterCounts(s.pending, c.forecast.forecastId, entry, t);
    } else if c.Resolve? {
      assert after == Waiting(s.pending, s.cycle + 1);
      CountDueWaiting(s.pending, s.cycle + 1, t);
    } else {
      assert after == s.pending;
    }
  }

  lemma {:induction false} QueueIsLive(threshold: real, cmds: seq<Command>, t: int)
    requires Fresh(cmds) && t >= Cycles(cmds)
    ensures CountDue(Run(Start(threshold), cmds).pending, t) == Live(cmds, t)
  {
    if cmds != [] {
      var n := |cmds| - 1;
      QueueIsLive(threshold, cmds[..n], t);
      FreshIdNotQueued(threshold, cmds);
      RunSound(threshold, cmds[..n]);
      CycleCounts(threshold, cmds[..n]);
      StepCounts(Run(Start(threshold), cmds[..n]), cmds[n], t);
    }
  }

  /** Nothing overdue is ever left in the queue. */
  ghost predicate NothingOverdue(s: Planner) {
    forall i | 0 <= i < |s.pending| :: DueLater(s.pending[i].1, s.cycle)
  }

  lemma {:induction false} WaitingImmature(pending: PendingQueue, cycle: int)
    ensures forall i | 0 <= i < |Waiting(pending, cycle)| :: !Waiting(pending, cycle)[i].1.Mature(cycle)
  {
    if pending != [] {
      WaitingImmature(pending[1..], cycle);
    }
  }

  lemma StepNothingOverdue(s: Planner, c: Command)
    requires SoundQueue(s) && NothingOverdue(s)
    ensures NothingOverdue(Step(s, c))
  {
    if c.Register? {
      var entry := PendingForecast(c.forecast, s.cycle);
      forall i | 0 <= i < |Step(s, c).pending| ensures DueLater(Step(s, c).pending[i].1, s.cycle) {
        SetMembers(s.pending, c.forecast.forecastId, entry, i);
      }
    } else if c.Resolve? {
      WaitingFiled(s.pending, s.cycle + 1);
      WaitingImmature(s.pending, s.cycle + 1);
    }
  }

  lemma {:induction false} RunNothingOverdue(threshold: real, cmds: seq<Command>)
    ensures NothingOverdue(Run(Start(threshold), cmds))
  {
    if cmds != [] {
      var before := cmds[..|cmds| - 1];
      RunNothingOverdue(threshold, before);
      RunSound(threshold, before);
      StepNothingOverdue(Run(Start(threshold), before), cmds[|cmds| - 1]);
    }
  }

  lemma {:induction false} CountAllDue(pending: PendingQueue, t: int)
    requires forall i | 0 <= i < |pending| :: DueLater(pending[i].1, t)
    ensures CountDue(pending, t) == |pending|
  {
    if pending != [] {
      CountAllDue(pending[1..], t);
    }
  }

  // ----- The exact queue length

  /** The cycles k < n with k + d > t. */
  function Window(n: nat, t: int, d: int): int {
    var first := t - d + 1;
    if first <= 0 then n else if first >= n then 0 else n - first
  }

  lemma LiveOfCycle(cmds: seq<Command>, c: CycleInput, t: int)
    requires c.AtHorizons()
    ensures Cycles(cmds + CycleCommands(c)) == Cycles(cmds) + 1
    ensures Live(cmds + CycleCommands(c), t)
         == Live(cmds, t) + (if Cycles(cmds) + 1 > t then 1 else 0) + (if Cycles(cmds) + 5 > t then 1 else 0)
                          + (if Cycles(cmds) + 20 > t then 1 else 0)
  {
    var one := cmds + [Register(c.short)];
    var two := one + [Register(c.medium)];
    var three := two + [Register(c.long)];
    LiveSnoc(cmds, Register(c.short), t);
    LiveSnoc(one, Register(c.medium), t);
    LiveSnoc(two, Register(c.long), t);
    LiveSnoc(three, Resolve(c.current), t);
    assert cmds + CycleCommands(c) == three + [Resolve(c.current)];
  }

  lemma LiveSnoc(cmds: seq<Command>, c: Command, t: int)
    ensures Cycles(cmds + [c]) == Cycles(cmds) + if c.Resolve? then 1 else 0
    ensures Live(cmds + [c], t) == Live(cmds, t) + if c.Register? && Due(c.forecast, Cycles(cmds)) > t then 1 else 0
  {
    assert (cmds + [c])[..|cmds + [c]| - 1] == cmds;
  }

  lemma {:induction false} LiveInDaemon(cycles: seq<CycleInput>, t: int)
    requires forall c | c in cycles :: c.AtHorizons()
    requires t >= |cycles|
    ensures Cycles(DaemonCommands(cycles)) == |cycles|
    ensures Live(DaemonCommands(cycles), t)
         == Window(|cycles|, t, 1) + Window(|cycles|, t, 5) + Window(|cycles|, t, 20)
  {
    if cycles != [] {
      var n := |cycles| - 1;
      LiveInDaemon(cycles[..n], t);
      assert cycles[n] in cycles;
      LiveOfCycle(DaemonCommands(cycles[..n]), cycles[n], t);
    }
  }

  function Min(a: int, b: int): int {
    if a <= b then a else b
  }

  /** Exact queue length: after n cycles with fresh ids the pending count is min(n, 4) + min(n, 19), hence
      never more than 23. */
  lemma {:induction false} QueueLength(threshold: real, cycles: seq<CycleInput>)
    requires forall c | c in cycles :: c.AtHorizons()
    requires Fresh(DaemonCommands(cycles))
    ensures |Run(Start(threshold), DaemonCommands(cycles)).pending| == Min(|cycles|, 4) + Min(|cycles|, 19)
    ensures |Run(Start(threshold), DaemonCommands(cycles)).pending| <= 23
  {
    var cmds, n := DaemonCommands(cycles), |cycles|;
    var s := Run(Start(threshold), cmds);
    LiveInDaemon(cycles, n);
    QueueIsLive(threshold, cmds, n);
    RunNothingOverdue(threshold, cmds);
    CycleCounts(threshold, cmds);
    CountAllDue(s.pending, n);
  }

  // ----- Whole runs of the daemon

  /** What one call of the runner is given: the snapshot and the fresh ids of its three forecasts. */
  datatype Tick = Tick(snapshot: Option<WorldSnapshot>, ids: seq<string>)

  /** What runs of the daemon change. */
  datatype DaemonState = DaemonState(planner: Planner, history: History)

  datatype CycleResult = CycleResult(forecasts: Option<seq<Forecast>>, results: Option<seq<FeedbackResult>>)

  ghost predicate Supplied(ticks: seq<Tick>) {
    forall i | 0 <= i < |ticks| :: |ticks[i].ids| == |HORIZONS|
  }

  /** The forecasts the runner issues in a state. */
  function Issued(fields: seq<string>, alpha: real, s: DaemonState, tick: Tick): seq<Forecast>
    requires HasHorizons(s.history) && |tick.ids| == |HORIZONS|
  {
    Forecasts(fields, alpha, s.history, CurrentValues(tick.snapshot), s.planner.known.records, tick.ids, |HORIZONS|)
  }

  function AfterTick(fields: seq<string>, alpha: real, s: DaemonState, tick: Tick): (r: DaemonState)
    requires HasHorizons(s.history) && |tick.ids| == |HORIZONS|
    ensures HasHorizons(r.history)
  {
    var current := CurrentValues(tick.snapshot);
    DaemonState(AfterCycle(s.planner, Issued(fields, alpha, s, tick), current),
                AdvancedHistory(fields, alpha, s.history, current, |HORIZONS|))
  }

  function AfterTicks(fields: seq<string>, alpha: real, s: DaemonState, ticks: seq<Tick>): (r: DaemonState)
    requires HasHorizons(s.history) && Supplied(ticks)
    ensures HasHorizons(r.history)
  {
    if ticks == [] then s
    else AfterTick(fields, alpha, AfterTicks(fields, alpha, s, ticks[..|ticks| - 1]), ticks[|ticks| - 1])
  }

  function TickResult(fields: seq<string>, alpha: real, s: DaemonState, tick: Tick): CycleResult
    requires HasHorizons(s.history) && |tick.ids| == |HORIZONS|
  {
    var issued := Issued(fields, alpha, s, tick);
    CycleResult(Some(issued), Some(ResultsNow(RegisterEach(s.planner, issued), CurrentValues(tick.snapshot))))
  }

  function TickResults(fields: seq<string>, alpha: real, s: DaemonState, ticks: seq<Tick>): (rs: seq<CycleResult>)
    requires HasHorizons(s.history) && Supplied(ticks)
    ensures |rs| == |ticks|
  {
    if ticks == [] then []
    else
      var n := |ticks| - 1;
      TickResults(fields, alpha, s, ticks[..n])
          + [TickResult(fields, alpha, AfterTicks(fields, alpha, s, ticks[..n]), ticks[n])]
  }

  lemma TicksSnoc(fields: seq<string>, alpha: real, s: DaemonState, ticks: seq<Tick>, i: nat)
    requires HasHorizons(s.history) && Supplied(ticks) && i < |ticks|
    ensures var before := AfterTicks(fields, alpha, s, ticks[..i]);
            && AfterTicks(fields, alpha, s, ticks[..i + 1]) == AfterTick(fields, alpha, before, ticks[i])
            && TickResults(fields, alpha, s, ticks[..i + 1])
               == TickResults(fields, alpha, s, ticks[..i]) + [TickResult(fields, alpha, before, ticks[i])]
  {
    assert ticks[..i + 1][..i] == ticks[..i] && ticks[..i + 1][i] == ticks[i];
  }

  /** The daemon with forecast and feedback enabled: both share one calibration store. */
  class CentroidDaemon {
    const runner: CycleRunner
    const generator: ForecastGenerator
    const loop: ForecastFeedbackLoop

    constructor (g: ForecastGenerator, l: ForecastFeedbackLoop)
      requires HasHorizons(g.lastPredictions) && l.Valid()
      ensures Valid() && generator == g && loop == l
    {
      generator := g;
      loop := l;
      runner := new CycleRunner(g, l, l.calibration);
    }

    ghost predicate Valid()
      reads runner, generator, loop, loop.planTree
    {
      && runner.forecastGenerator == generator && runner.feedbackLoop == loop
      && runner.calibrationStore == loop.calibration
      && runner.Valid()
    }

    ghost function State(): DaemonState
      reads generator, loop, loop.calibration, loop.planTree
    {
      DaemonState(loop.State(), generator.lastPredictions)
    }

    method RunOnce(tick: Tick) returns (result: CycleResult)
      requires Valid() && |tick.ids| == |HORIZONS|
      modifies generator, loop, loop.calibration, loop.planTree
      ensures Valid() && HasHorizons(old(generator.lastPredictions))
      ensures State() == AfterTick(generator.fields, generator.alpha, old(State()), tick)
      ensures result == TickResult(generator.fields, generator.alpha, old(State()), tick)
    {
      var forecasts, results := runner.Run(tick.snapshot, tick.ids);
      result := CycleResult(forecasts, results);
    }

    /** One result per cycle. */
    method RunAll(ticks: seq<Tick>) returns (results: seq<CycleResult>)
      requires Valid() && Supplied(ticks)
      modifies generator, loop, loop.calibration, loop.planTree
      ensures Valid() && HasHorizons(old(generator.lastPredictions))
      ensures State() == AfterTicks(generator.fields, generator.alpha, old(State()), ticks)
      ensures results == TickResults(generator.fields, generator.alpha, old(State()), ticks)
    {
      results := [];
      ghost var start := State();
      for i := 0 to |ticks|
        invariant Valid()
        invariant State() == AfterTicks(generator.fields, generator.alpha, start, ticks[..i])
        invariant results == TickResults(generator.fields, generator.alpha, start, ticks[..i])
      {
        TicksSnoc(generator.fields, generator.alpha, start, ticks, i);
        var result := RunOnce(ticks[i]);
        results := results + [result];
      }
      assert ticks[..|ticks|] == ticks;
    }

    /** From an empty queue and with fresh ids exactly min(n, 4) + min(n, 19) forecasts are pending after n
        cycles. */
    method RunCycles(ticks: seq<Tick>) returns (results: seq<CycleResult>)
      requires Valid() && Supplied(ticks)
      modifies generator, loop, loop.calibration, loop.planTree
      ensures Valid() && HasHorizons(old(generator.lastPredictions))
      ensures State() == AfterTicks(generator.fields, generator.alpha, old(State()), ticks)
      ensures results == TickResults(generator.fields, generator.alpha, old(State()), ticks)
      ensures old(loop.State()) == Start(loop.planTree.abandonThreshold) && Distinct(IdsOfTicks(ticks)) ==>
                |loop.pending| == Min(|ticks|, 4) + Min(|ticks|, 19)
    {
      ghost var start := State();
      results := RunAll(ticks);
      if start.planner == Start(loop.planTree.abandonThreshold) && Distinct(IdsOfTicks(ticks)) {
        DaemonQueueLength(generator.fields, generator.alpha, start, ticks);
        assert State().planner.pending == loop.pending;
      }
    }
  }

  // ----- Runs of the daemon are runs of commands

  function IdsOfTicks(ticks: seq<Tick>): seq<string> {
    if ticks == [] then [] else IdsOfTicks(ticks[..|ticks| - 1]) + ticks[|ticks| - 1].ids
  }

  function CycleFor(fields: seq<string>, alpha: real, s: DaemonState, tick: Tick): CycleInput
    requires HasHorizons(s.history) && |tick.ids| == |HORIZONS|
  {
    var fs := Issued(fields, alpha, s, tick);
    CycleInput(fs[0], fs[1], fs[2], CurrentValues(tick.snapshot))
  }

  function CyclesFor(fields: seq<string>, alpha: real, s: DaemonState, ticks: seq<Tick>): (cs: seq<CycleInput>)
    requires HasHorizons(s.history) && Supplied(ticks)
    ensures |cs| == |ticks|
  {
    if ticks == [] then []
    else
      var n := |ticks| - 1;
      CyclesFor(fields, alpha, s, ticks[..n])
          + [CycleFor(fields, alpha, AfterTicks(fields, alpha, s, ticks[..n]), ticks[n])]
  }

  lemma CycleForShape(fields: seq<string>, alpha: real, s: DaemonState, tick: Tick)
    requires HasHorizons(s.history) && |tick.ids| == |HORIZONS|
    ensures var c := CycleFor(fields, alpha, s, tick);
            && c.AtHorizons()
            && Issued(fields, alpha, s, tick) == [c.short, c.medium, c.long]
            && [c.short.forecastId, c.medium.forecastId, c.long.forecastId] == tick.ids
  {
    ThreeForecasts(fields, alpha, s.history, CurrentValues(tick.snapshot), s.planner.known.records, tick.ids);
  }

  lemma {:induction false} DaemonIsRun(fields: seq<string>, alpha: real, s: DaemonState, ticks: seq<Tick>)
    requires HasHorizons(s.history) && Supplied(ticks)
    ensures AfterTicks(fields, alpha, s, ticks).planner
         == Run(s.planner, DaemonCommands(CyclesFor(fields, alpha, s, ticks)))
    ensures forall c | c in CyclesFor(fields, alpha, s, ticks) :: c.AtHorizons()
    ensures RegisteredIds(DaemonCommands(CyclesFor(fields, alpha, s, ticks))) == IdsOfTicks(ticks)
  {
    if ticks != [] {
      var n := |ticks| - 1;
      var before := AfterTicks(fields, alpha, s, ticks[..n]);
      var cycles, c := CyclesFor(fields, alpha, s, ticks[..n]), CycleFor(fields, alpha, before, ticks[n]);
      DaemonIsRun(fields, alpha, s, ticks[..n]);
      CycleForShape(fields, alpha, before, ticks[n]);
      assert (cycles + [c])[..n] == cycles && (cycles + [c])[n] == c;
      CycleIsRun(s.planner, DaemonCommands(cycles), c);
      CycleRegisters(DaemonCommands(cycles), c);
    }
  }

  lemma CycleRegisters(cmds: seq<Command>, c: CycleInput)
    ensures RegisteredIds(cmds + CycleCommands(c))
         == RegisteredIds(cmds) + [c.short.forecastId, c.medium.forecastId, c.long.forecastId]
  {
    var one := cmds + [Register(c.short)];
    var two := one + [Register(c.medium)];
    var three := two + [Register(c.long)];
    RegisteredSnoc(cmds, Register(c.short));
    RegisteredSnoc(one, Register(c.medium));
    RegisteredSnoc(two, Register(c.long));
    RegisteredSnoc(three, Resolve(c.current));
    assert cmds + CycleCommands(c) == three + [Resolve(c.current)];
  }

  lemma RegisteredSnoc(cmds: seq<Command>, c: Command)
    ensures RegisteredIds(cmds + [c]) == RegisteredIds(cmds) + NewIds(c)
  {
    assert (cmds + [c])[..|cmds + [c]| - 1] == cmds;
  }

  lemma {:induction false} RegisteredMember(cmds: seq<Command>, i: nat)
    requires i < |cmds| && cmds[i].Register?
    ensures cmds[i].forecast.forecastId in RegisteredIds(cmds)
    decreases |cmds|
  {
    if i < |cmds| - 1 {
      RegisteredMember(cmds[..|cmds| - 1], i);
    }
  }

  lemma {:induction false} DistinctIsFresh(cmds: seq<Command>)
    requires Distinct(RegisteredIds(cmds))
    ensures Fresh(cmds)
  {
    if cmds != [] {
      var n := |cmds| - 1;
      var earlier := RegisteredIds(cmds[..n]);
      assert Distinct(earlier) by {
        assert forall i | 0 <= i < |earlier| :: earlier[i] == RegisteredIds(cmds)[i];
      }
      DistinctIsFresh(cmds[..n]);
      if cmds[n].Register? {
        var id := cmds[n].forecast.forecastId;
        forall i | 0 <= i < n && cmds[i].Register?
          ensures cmds[i].forecast.forecastId != id
        {
          RegisteredMember(cmds[..n], i);
          var k :| 0 <= k < |earlier| && earlier[k] == cmds[..n][i].forecast.forecastId;
          assert RegisteredIds(cmds)[k] == earlier[k] && RegisteredIds(cmds)[|earlier|] == id;
        }
      }
    }
  }

  /** The exact queue length, for n calls of the runner from an empty queue with fresh ids. */
  lemma {:induction false} DaemonQueueLength(fields: seq<string>, alpha: real, s: DaemonState, ticks: seq<Tick>)
    requires HasHorizons(s.history) && Supplied(ticks) && s.planner == Start(s.planner.threshold)
    requires Distinct(IdsOfTicks(ticks))
    ensures |AfterTicks(fields, alpha, s, ticks).planner.pending| == Min(|ticks|, 4) + Min(|ticks|, 19)
  {
    var cycles := CyclesFor(fields, alpha, s, ticks);
    DaemonIsRun(fields, alpha, s, ticks);
    DistinctIsFresh(DaemonCommands(cycles));
    QueueLength(s.planner.threshold, cycles);
  }

  /** A cycle sees the health of every node and, under its own name, the system's; without a snapshot nothing. */
  lemma {:induction false} SnapshotValues(snapshot: WorldSnapshot, field: string)
    ensures CurrentValues(None) == map[]
    ensures var seen := CurrentValues(Some(snapshot));
            && "system_health_ratio" in seen && seen["system_health_ratio"] == snapshot.systemHealthRatio
            && (field != "system_health_ratio" ==>
                  (field in seen <==> field in snapshot.nodeHealth)
                  && (field in seen ==> seen[field] == snapshot.nodeHealth[field]))
  {
  }
}
