/** What every run of the preparation protocol keeps, in every interleaving
    (apps/world-server/src/preparation_scheduler.rs, crates/preparation/src/lib.rs). */
module PreparationRuns {
  import opened MachineInts
  import opened Lattice
  import opened Frontier
  import opened QuadrantPreparation
  import opened FrontierRuntimes
  import opened PreparationProtocol

  // ----- Retries -----

  /** The retry entry of a quadrant after failures at the given instants. */
  function AfterFailures(cfg: Config, instants: seq<nat>): (r: Option<Retry>)
  {
    if instants == [] then None
    else Some(AfterFailure(cfg, AfterFailures(cfg, instants[..|instants| - 1]), instants[|instants| - 1]))
  }

  /** Retries end after `maxRetries + 1` failures, except that the saturating counter never
      exceeds a limit of 2^32 - 1: such a quadrant is retried for ever. */
  lemma {:induction false} ExhaustedIff(cfg: Config, instants: seq<nat>)
    requires instants != []
    ensures var entry := AfterFailures(cfg, instants).value;
            && entry.failures == Min(|instants|, U32_MAX)
            && (entry.exhausted <==> |instants| > cfg.maxRetries && cfg.maxRetries < U32_MAX)
    decreases |instants|
  {
    if |instants| > 1 {
      ExhaustedIff(cfg, instants[..|instants| - 1]);
    }
  }

  // ----- Runs -----

  ghost predicate Initial(s: System) {
    && Invariant(s.Runtime()) && s.slots == map[] && s.retries == map[] && s.failures == map[]
    && s.requests == [] && s.tasks == [] && s.worker == Selecting && s.results == []
    && s.outstanding == {} && s.retained == map[] && s.control == Resting
  }

  ghost predicate ProtocolRun(cfg: Config, states: seq<System>, steps: seq<Step>) {
    && |states| == |steps| + 1
    && Initial(states[0])
    && forall i {:trigger steps[i]} :: 0 <= i < |steps| ==> Next(cfg, states[i], steps[i], states[i + 1])
  }

  lemma InitialSafe(cfg: Config, s: System)
    requires Initial(s)
    ensures Safe(cfg, s) && RetriesCount(cfg, s)
  {
    assert forall id :: PipelineCount(s, id) == 0;
    assert forall c: Coord :: s.frontier.PhaseOf(c) != Prepared;
    assert PreparedSet(s.frontier) == {} && InFlightSet(s.slots) == {};
  }

  ghost predicate Good(cfg: Config, s: System) {
    Safe(cfg, s) && (cfg.maxRetries < U32_MAX ==> RetriesCount(cfg, s))
  }

  lemma SchedulerKeepsGood(cfg: Config, s: System, step: Step, t: System)
    requires Good(cfg, s) && SchedulerNext(cfg, s, step, t)
    ensures Good(cfg, t)
  {
    SchedulerKeepsSafe(cfg, s, step, t);
    if cfg.maxRetries < U32_MAX {
      SchedulerKeepsRetries(cfg, s, step, t);
    }
  }

  lemma WorkerKeepsGood(cfg: Config, s: System, step: Step, t: System)
    requires Good(cfg, s) && WorkerNext(cfg, s, step, t)
    ensures Good(cfg, t)
  {
    WorkerStepKeepsSafe(cfg, s, step, t);
    WorkerFramed(cfg, s, step, t);
    if cfg.maxRetries < U32_MAX {
      FrameKeepsRetries(cfg, s, t);
    }
  }

  lemma NextKeepsGood(cfg: Config, s: System, step: Step, t: System)
    requires Good(cfg, s) && Next(cfg, s, step, t)
    ensures Good(cfg, t)
  {
    if SchedulerNext(cfg, s, step, t) {
      SchedulerKeepsGood(cfg, s, step, t);
    } else {
      WorkerKeepsGood(cfg, s, step, t);
    }
  }

  lemma StepOfRun(cfg: Config, states: seq<System>, steps: seq<Step>, i: nat)
    requires ProtocolRun(cfg, states, steps) && i < |steps|
    ensures Next(cfg, states[i], steps[i], states[i + 1])
  {
  }

  lemma {:induction false} RunIsGood(cfg: Config, states: seq<System>, steps: seq<Step>, i: nat)
    requires ProtocolRun(cfg, states, steps) && i < |states|
    ensures Good(cfg, states[i])
  {
    if i == 0 {
      InitialSafe(cfg, states[0]);
    } else {
      RunIsGood(cfg, states, steps, i - 1);
      RunStepKeepsGood(cfg, states, steps, i - 1);
    }
  }

  lemma RunStepKeepsGood(cfg: Config, states: seq<System>, steps: seq<Step>, i: nat)
    requires ProtocolRun(cfg, states, steps) && i < |steps| && Good(cfg, states[i])
    ensures Good(cfg, states[i + 1])
  {
    StepOfRun(cfg, states, steps, i);
    NextKeepsGood(cfg, states[i], steps[i], states[i + 1]);
  }

  /** In every interleaving: an identity is in the queues and tasks at most once, and then its
      quadrant is a Candidate reserved for it. */
  lemma PipelineHoldsReservations(cfg: Config, states: seq<System>, steps: seq<Step>, i: nat, id: Identity)
    requires ProtocolRun(cfg, states, steps) && i < |states|
    ensures PipelineCount(states[i], id) <= 1
    ensures PipelineCount(states[i], id) == 1 ==>
              && id.coord in states[i].slots && states[i].slots[id.coord] == InFlight(id)
              && states[i].frontier.PhaseOf(id.coord) == Candidate
  {
    RunIsGood(cfg, states, steps, i);
  }

  /** The scheduler gives up only because the worker is gone: every result it consumes is committed,
      every failure finds its reservation and every rollback succeeds. */
  lemma OnlyALostWorkerBails(cfg: Config, states: seq<System>, steps: seq<Step>, i: nat)
    requires ProtocolRun(cfg, states, steps) && i < |states| && states[i].control.Bailed?
    ensures match states[i].control.why
      case QueueClosed => states[i].worker == Stopped
      case ResultsDisconnected => states[i].worker.ResultsClosed()
      case _ => false
  {
    RunIsGood(cfg, states, steps, i);
  }

  /** Prepared and in-flight quadrants together never exceed the budget. */
  lemma BudgetHolds(cfg: Config, states: seq<System>, steps: seq<Step>, i: nat)
    requires ProtocolRun(cfg, states, steps) && i < |states|
    ensures |PreparedSet(states[i].frontier)| + |InFlightSet(states[i].slots)| <= cfg.maxPrepared
  {
    RunIsGood(cfg, states, steps, i);
  }

  /** No quadrant fails more than `maxRetries + 1` times, and then it is not in flight and may
      not be tried again. */
  lemma FailuresBounded(cfg: Config, states: seq<System>, steps: seq<Step>, i: nat, c: Coord)
    requires ProtocolRun(cfg, states, steps) && i < |states| && cfg.maxRetries < U32_MAX
    ensures states[i].FailuresOf(c) <= cfg.maxRetries + 1
    ensures states[i].FailuresOf(c) == cfg.maxRetries + 1 ==>
              c !in states[i].slots && !RetryAllows(states[i], c)
  {
    RunIsGood(cfg, states, steps, i);
    FailuresBoundedIn(cfg, states[i], c);
  }

  lemma FailuresBoundedIn(cfg: Config, s: System, c: Coord)
    requires RetriesCount(cfg, s)
    ensures s.FailuresOf(c) <= cfg.maxRetries + 1
    ensures s.FailuresOf(c) == cfg.maxRetries + 1 ==> c !in s.slots && !RetryAllows(s, c)
  {
  }
}
