/** Twin-world simulation before a mutating action is committed. */
module SafetyPreflight {
  import opened Rounding
  import opened Sequences
  import opened SparseVectors
  import opened Divergence

  datatype Decision = Allow | Hold | Deny {
    function Rank(): nat {
      match this
      case Allow => 0
      case Hold => 1
      case Deny => 2
    }
  }

  /** A mutation of the value at a path of keys. */
  datatype Intervention = Intervention(actionType: string, path: seq<string>, proposedValue: Json)

  /** What the coherence graph's counterfactual run reports. */
  datatype Simulated = Simulated(nodeScores: map<string, real>, index: real)

  datatype PreflightVerdict = PreflightVerdict(forkId: string, actionType: string, divergence: real, threshold: real,
                                               escalated: bool, originalDecision: Decision, finalDecision: Decision)

  /** The snapshot with the value at the path replaced, or nothing when the path does not exist. */
  function SetPath(s: Snapshot, path: seq<string>, value: Json): Option<Snapshot>
    decreases |path|
  {
    if path == [] || path[0] !in s then None
    else if |path| == 1 then Some(s[path[0] := value])
    else if !s[path[0]].Object? then None
    else
      var inner := SetPath(s[path[0]].fields, path[1..], value);
      if inner.None? then None else Some(s[path[0] := Object(inner.value)])
  }

  function GetPath(s: Snapshot, path: seq<string>): Option<Json>
    decreases |path|
  {
    if path == [] || path[0] !in s then None
    else if |path| == 1 then Some(s[path[0]])
    else if !s[path[0]].Object? then None
    else GetPath(s[path[0]].fields, path[1..])
  }

  /** Setting succeeds exactly on existing paths, is read back, and setting the old value undoes it. */
  lemma {:induction false} SetPathLaws(s: Snapshot, path: seq<string>, value: Json)
    ensures SetPath(s, path, value).Some? <==> GetPath(s, path).Some?
    ensures SetPath(s, path, value).Some? ==>
              && GetPath(SetPath(s, path, value).value, path) == Some(value)
              && SetPath(SetPath(s, path, value).value, path, GetPath(s, path).value) == Some(s)
    decreases |path|
  {
    if path != [] && path[0] in s {
      if |path| == 1 {
        assert s[path[0] := value][path[0] := s[path[0]]] == s;
      } else if s[path[0]].Object? {
        SetPathLaws(s[path[0]].fields, path[1..], value);
        var inner := SetPath(s[path[0]].fields, path[1..], value);
        if inner.Some? {
          assert s[path[0] := Object(inner.value)][path[0] := s[path[0]]] == s;
        }
      }
    }
  }

  function WithSimulation(s: Snapshot, simulated: Option<Simulated>): Snapshot {
    if simulated.None? then s
    else
      s["node_health" := Object(map k | k in simulated.value.nodeScores :: Number(simulated.value.nodeScores[k]))]
       ["coherence_index" := Number(simulated.value.index)]
  }

  ghost function PointsOf(actuals: seq<Snapshot>, twin: Snapshot): (ps: seq<real>)
    ensures |ps| == |actuals|
    ensures forall i | 0 <= i < |ps| :: ps[i] == PointDivergence(Floats(actuals[i]), Floats(twin))
  {
    seq(|actuals|, i requires 0 <= i < |actuals| => PointDivergence(Floats(actuals[i]), Floats(twin)))
  }

  /** The divergence of a twin against the actual snapshots read in turn. */
  ghost function SimulatedDivergence(actuals: seq<Snapshot>, twin: Snapshot, decay: real, maxSamples: nat): real {
    var points := LastN(PointsOf(actuals, twin), maxSamples);
    if points == [] then 0.0 else WeightedDivergence(decay, points)
  }

  function Escalate(divergence: real, threshold: real, original: Decision): Decision {
    if divergence > threshold && original == Allow then Hold else original
  }

  class TwinBuffer {
    var cycle: nat

    constructor ()
      ensures cycle == 0
    {
      cycle := 0;
    }

    method Tick()
      modifies this
      ensures cycle == old(cycle) + 1
    {
      cycle := cycle + 1;
    }
  }

  class SafetyPreflight {
    const buffer: TwinBuffer
    const calculator: DivergenceCalculator
    const threshold: real

    constructor (b: TwinBuffer, c: DivergenceCalculator, t: real)
      ensures buffer == b && calculator == c && threshold == t
    {
      buffer := b;
      calculator := c;
      threshold := t;
    }

    /** Forks the snapshot under a fresh id, applies the intervention to the twin, samples it against the
        actual snapshots as they are read, and escalates. Without a verdict nothing was touched. */
    method Evaluate(forked: Snapshot, forkId: string, intervention: Intervention, simulated: Option<Simulated>,
                    actuals: seq<Snapshot>, original: Decision)
      returns (verdict: Option<PreflightVerdict>)
      requires forkId !in calculator.samples
      modifies calculator, buffer
      ensures calculator.samples == old(calculator.samples)
      ensures verdict.None? <==> SetPath(forked, intervention.path, intervention.proposedValue).None?
      ensures verdict.None? ==> buffer.cycle == old(buffer.cycle)
      ensures verdict.Some? ==>
                var twin := WithSimulation(SetPath(forked, intervention.path, intervention.proposedValue).value,
                    simulated);
                var divergence := SimulatedDivergence(actuals, twin, calculator.decay, calculator.maxSamples);
                && buffer.cycle == old(buffer.cycle) + 1
                && verdict.value == PreflightVerdict(forkId, intervention.actionType, divergence, threshold,
                                                     divergence > threshold && original == Allow, original,
                                                     Escalate(divergence, threshold, original))
      ensures verdict.Some? ==> verdict.value.finalDecision.Rank() >= original.Rank()
      ensures verdict.Some? ==>
                && (verdict.value.finalDecision == Deny <==> original == Deny)
                && (verdict.value.finalDecision == Allow <==>
                      original == Allow && verdict.value.divergence <= threshold)
    {
      var mutated := SetPath(forked, intervention.path, intervention.proposedValue);
      if mutated.None? {
        return None;
      }
      var twin := WithSimulation(mutated.value, simulated);
      SampleAll(forkId, actuals, twin, PointsOf(actuals, twin));
      var metric := calculator.Compute(forkId);
      var divergence := metric.weightedDivergence;
      calculator.Clear(forkId);
      buffer.Tick();
      var escalated, finalDecision := false, original;
      if divergence > threshold && original == Allow {
        escalated, finalDecision := true, Hold;
      }
      verdict := Some(PreflightVerdict(forkId, intervention.actionType, divergence, threshold, escalated, original,
          finalDecision));
    }

    /** Samples the twin against each actual snapshot in turn. */
    method SampleAll(forkId: string, actuals: seq<Snapshot>, twin: Snapshot, ghost points: seq<real>)
      requires forkId !in calculator.samples && |points| == |actuals|
      requires forall i :: MeasuredAt(points, actuals, twin, i)
      modifies calculator
      ensures calculator.samples - {forkId} == old(calculator.samples)
      ensures Points(SamplesOf(calculator.samples, forkId)) == LastN(points, calculator.maxSamples)
    {
      ghost var others, size := calculator.samples, calculator.maxSamples;
      ghost var kept: seq<DivergenceSample> := [];
      for i := 0 to |actuals|
        invariant calculator.samples == WithSamples(others, forkId, i, kept)
        invariant (i == 0 ==> kept == []) && Points(kept) == LastN(points[..i], size)
      {
        ghost var seen, d := points[..i], points[i];
        assert points[..i + 1] == seen + [d];
        assert MeasuredAt(points, actuals, twin, i);
        var s := SampleOnce(forkId, actuals[i], twin, i, d);
        PointsExtend(kept, size, s, seen, d);
        SamplesGrow(others, forkId, i, kept, Push(kept, size, s));
        kept := Push(kept, size, s);
      }
      assert points[..|actuals|] == points;
      SamplesForgotten(others, forkId, |actuals|, kept);
    }

    method SampleOnce(forkId: string, actual: Snapshot, twin: Snapshot, cycle: int, ghost d: real)
      returns (s: DivergenceSample)
      requires d == PointDivergence(Floats(actual), Floats(twin))
      modifies calculator
      ensures s.pointDivergence == d
      ensures calculator.samples
           == old(calculator.samples)[forkId :=
               Push(SamplesOf(old(calculator.samples), forkId), calculator.maxSamples, s)]
    {
      s := calculator.Sample(forkId, actual, twin, cycle);
    }
  }

  /** The i-th point is what the i-th snapshot gives. */
  ghost predicate MeasuredAt(points: seq<real>, actuals: seq<Snapshot>, twin: Snapshot, i: int) {
    0 <= i < |points| && i < |actuals| ==> points[i] == PointDivergence(Floats(actuals[i]), Floats(twin))
  }

  /** The log with a fork's own samples, once it has taken any. */
  ghost function WithSamples(others: SampleLog, forkId: string, taken: nat, kept: seq<DivergenceSample>): SampleLog {
    if taken == 0 then others else others[forkId := kept]
  }

  lemma SamplesGrow(others: SampleLog, forkId: string, taken: nat, kept: seq<DivergenceSample>,
                    more: seq<DivergenceSample>)
    requires forkId !in others && (taken == 0 ==> kept == [])
    ensures SamplesOf(WithSamples(others, forkId, taken, kept), forkId) == kept
    ensures WithSamples(others, forkId, taken, kept)[forkId := more] == WithSamples(others, forkId, taken + 1, more)
  {
  }

  lemma SamplesForgotten(others: SampleLog, forkId: string, taken: nat, kept: seq<DivergenceSample>)
    requires forkId !in others && (taken == 0 ==> kept == [])
    ensures SamplesOf(WithSamples(others, forkId, taken, kept), forkId) == kept
    ensures WithSamples(others, forkId, taken, kept) - {forkId} == others
  {
  }

  lemma PointsExtend(samples: seq<DivergenceSample>, n: nat, s: DivergenceSample, seen: seq<real>, d: real)
    requires Points(samples) == LastN(seen, n) && s.pointDivergence == d
    ensures Points(Push(samples, n, s)) == LastN(seen + [d], n)
  {
    assert Points(samples + [s]) == Points(samples) + [d];
    PushIsLastN(seen, n, d);
  }

  /** With an unchanged actual snapshot the reported divergence is the single point divergence, whatever
      the decay, the number of cycles and the number of samples kept. */
  lemma {:induction false} UnchangedActual(actual: Snapshot, actuals: seq<Snapshot>, twin: Snapshot,
          decay: real, maxSamples: nat)
    requires decay > 0.0 && maxSamples >= 1 && actuals != []
    requires forall i | 0 <= i < |actuals| :: actuals[i] == actual
    ensures SimulatedDivergence(actuals, twin, decay, maxSamples) == PointDivergence(Floats(actual), Floats(twin))
  {
    var points, d := LastN(PointsOf(actuals, twin), maxSamples), PointDivergence(Floats(actual), Floats(twin));
    PointOnGrid(Floats(actual), Floats(twin));
    forall i | 0 <= i < |points| ensures points[i] == d {
      assert points[i] == PointsOf(actuals, twin)[|actuals| - |points| + i];
    }
    ConstantDivergence(decay, points, d);
  }

  lemma PointOnGrid(a: Vector, b: Vector)
    ensures OnGrid6(PointDivergence(a, b))
  {
    var shared := a.Keys * b.Keys;
    Round6OnGrid(if shared == {} then 0.0 else SumOver(shared, Gap(a, b)) / |shared| as real);
  }

  /** A simulation is seen under its two keys and nowhere else. */
  lemma {:induction false} SimulationSeen(s: Snapshot, simulated: Simulated, k: string)
    ensures var twin := WithSimulation(s, Some(simulated));
            && GetPath(twin, ["coherence_index"]) == Some(Number(simulated.index))
            && (k in simulated.nodeScores ==>
                  GetPath(twin, ["node_health", k]) == Some(Number(simulated.nodeScores[k])))
            && (k != "coherence_index" && k != "node_health" ==> GetPath(twin, [k]) == GetPath(s, [k]))
    ensures WithSimulation(s, None) == s
  {
    assert ["node_health", k][1..] == [k];
  }
}
