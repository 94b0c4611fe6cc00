/** Plan threads and their confidence gate. */
module PlanTree {
  import opened Rounding
  import opened Sequences

  datatype Status = Active | Completed | Abandoned

  datatype PlanStep = PlanStep(description: string, mutatesState: bool, requiresApproval: bool)

  datatype PlanThread = PlanThread(threadId: string, goal: string, steps: seq<PlanStep>, status: Status,
                                   confidence: real, forecastIds: seq<string>)

  type Threads = Dict<string, PlanThread>

  /** The thread with a new confidence: abandoned when the unrounded value is below the threshold. */
  function Reassessed(t: PlanThread, confidence: real, threshold: real): PlanThread {
    t.(confidence := Round6(confidence), status := if confidence < threshold then Abandoned else t.status)
  }

  /** Every thread is filed under its own id. */
  ghost predicate WellFiled(threads: Threads) {
    && DistinctKeys(threads)
    && forall i | 0 <= i < |threads| :: threads[i].1.threadId == threads[i].0
  }

  lemma SetWellFiled(threads: Threads, t: PlanThread)
    requires WellFiled(threads)
    ensures WellFiled(Set(threads, t.threadId, t))
  {
    SetDistinct(threads, t.threadId, t);
    var after := Set(threads, t.threadId, t);
    forall i | 0 <= i < |after|
      ensures after[i].1.threadId == after[i].0
    {
      SetMembers(threads, t.threadId, t, i);
    }
  }

  /** The threads with a new active one. */
  function Adding(threads: Threads, id: string, goal: string, steps: seq<PlanStep>, confidence: real,
                  forecastIds: seq<string>): Threads
  {
    Set(threads, id, PlanThread(id, goal, steps, Active, Round6(confidence), forecastIds))
  }

  /** The threads with one completed, if there is one of that id. */
  function Completing(threads: Threads, id: string): Threads {
    var t := Get(threads, id);
    if t.None? then threads else Set(threads, id, t.value.(status := Completed))
  }

  class PlanTree {
    const abandonThreshold: real
    var threads: Threads

    constructor (threshold: real)
      ensures abandonThreshold == threshold && threads == []
    {
      abandonThreshold := threshold;
      threads := [];
    }

    /** Registers a new active thread under a fresh id. */
    method AddThread(id: string, goal: string, steps: seq<PlanStep>, initialConfidence: real, forecastIds: seq<string>)
      returns (thread: PlanThread)
      modifies this
      ensures thread == PlanThread(id, goal, steps, Active, Round6(initialConfidence), forecastIds)
      ensures threads == Adding(old(threads), id, goal, steps, initialConfidence, forecastIds)
    {
      thread := PlanThread(id, goal, steps, Active, Round6(initialConfidence), forecastIds);
      threads := Set(threads, id, thread);
    }

    /** The new thread, or nothing when no thread has that id. */
    method UpdateConfidence(id: string, newConfidence: real) returns (thread: Option<PlanThread>)
      modifies this
      ensures Get(old(threads), id).None? ==> thread.None? && threads == old(threads)
      ensures Get(old(threads), id).Some? ==>
                && thread == Some(Reassessed(Get(old(threads), id).value, newConfidence, abandonThreshold))
                && threads == Set(old(threads), id, thread.value)
    {
      thread := Get(threads, id);
      if thread.Some? {
        var t := thread.value.(confidence := Round6(newConfidence));
        if newConfidence < abandonThreshold {
          t := t.(status := Abandoned);
        }
        threads := Set(threads, id, t);
        thread := Some(t);
      }
    }

    method Complete(id: string) returns (thread: Option<PlanThread>)
      modifies this
      ensures threads == Completing(old(threads), id)
      ensures thread == Get(threads, id)
    {
      thread := Get(threads, id);
      if thread.Some? {
        var t := thread.value.(status := Completed);
        GetSet(threads, id, t, id);
        threads := Set(threads, id, t);
        thread := Some(t);
      }
    }
  }
}
