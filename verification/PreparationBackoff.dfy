/** When a failed quadrant is tried again: its backoff, its limit and its turn, over every run
    (apps/world-server/src/preparation_scheduler.rs). */
module PreparationBackoff {
  import opened MachineInts
  import opened Lattice
  import opened Frontier
  import opened QuadrantPreparation
  import opened FrontierRuntimes
  import opened PreparationProtocol
  import opened PreparationRuns

  /** In this step the scheduler commits a failed preparation of the quadrant. */
  predicate FailsNow(s: System, step: Step, c: Coord) {
    step.Handle? && s.control.Handling? && s.control.event.TaskFailed? && s.control.event.failed.coord == c
  }

  /** The instants, and this step's if the quadrant fails in it. */
  function Extended(s: System, step: Step, c: Coord, instants: seq<nat>): (r: seq<nat>)
    ensures |r| <= |instants| + 1
  {
    if FailsNow(s, step, c) then instants + [s.now] else instants
  }

  /** The instants at which failures of the quadrant were committed in the first `n` steps. */
  function FailureInstants(states: seq<System>, steps: seq<Step>, c: Coord, n: nat): (instants: seq<nat>)
    requires n <= |steps| < |states|
    ensures |instants| <= n
  {
    if n == 0 then []
    else
      Extended(states[n - 1], steps[n - 1], c, FailureInstants(states, steps, c, n - 1))
  }

  // ----- One retry entry -----

  /** The entry that failures at these instants leave: it counts them, is exhausted over the limit, and
      otherwise waits for one backoff after the last of them. */
  predicate EntryOf(cfg: Config, entry: Option<Retry>, instants: seq<nat>) {
    if instants == [] then entry.None?
    else
      && entry.Some?
      && entry.value.failures == Min(|instants|, U32_MAX)
      && (entry.value.exhausted <==> |instants| > cfg.maxRetries && cfg.maxRetries < U32_MAX)
      && (!entry.value.exhausted ==> entry.value.retryAfter == instants[|instants| - 1] + cfg.backoff)
  }

  lemma OneMoreFailure(cfg: Config, entry: Option<Retry>, instants: seq<nat>, now: nat)
    requires EntryOf(cfg, entry, instants)
    ensures EntryOf(cfg, Some(AfterFailure(cfg, entry, now)), instants + [now])
  {
  }

  predicate ReadyAt(s: System, c: Coord) { c in s.slots && s.slots[c].Ready? }

  /** The books of a quadrant: its entry is what its failures make it, unless it was completed. */
  predicate EntryExact(cfg: Config, s: System, c: Coord, instants: seq<nat>) {
    ReadyAt(s, c) || EntryOf(cfg, RetryOf(s, c), instants)
  }

  // ----- One step -----

  /** No step takes a completed quadrant's artifact away, and only handling a failure writes its entry. */
  ghost predicate Quiet(s: System, t: System, c: Coord) {
    && (ReadyAt(s, c) ==> ReadyAt(t, c))
    && (RetryOf(t, c) == RetryOf(s, c) || ReadyAt(t, c))
    && s.now <= t.now
  }

  lemma CompletionQuiet(cfg: Config, s: System, artifact: Artifact, c: Coord)
    requires Invariant(s.Runtime()) && Core(cfg, s) && s.control == Handling(TaskCompleted(artifact))
    ensures Quiet(s, Handled(cfg, s, s.control.event), c)
  {
    CompletionCommits(cfg, s, artifact);
  }

  lemma FailureQuiet(cfg: Config, s: System, id: Identity, c: Coord)
    requires ReservationsMatch(cfg, s) && s.control == Handling(TaskFailed(id)) && id.coord != c
    ensures Quiet(s, Handled(cfg, s, s.control.event), c)
  {
    FailureReleases(cfg, s, id);
  }

  lemma AdvanceQuiet(cfg: Config, s: System, c: Coord)
    requires ReservationsMatch(cfg, s) && s.control.Scheduling?
    requires forall d: Coord :: d in s.control.loop.rest ==> s.frontier.PhaseOf(d) == Candidate
    ensures Quiet(s, Advanced(cfg, s, s.control.loop), c)
  {
    AdvanceOutcome(cfg, s, s.control.loop);
    AdvancedControl(cfg, s, s.control.loop);
  }

  lemma CancelQuiet(cfg: Config, s: System, c: Coord)
    requires ReservationsMatch(cfg, s) && s.control.Cancelling?
    ensures Quiet(s, Cancelled(s, s.control.id, s.control.closed), c)
  {
    CancelOutcome(cfg, s);
  }

  lemma NowAdvances(cfg: Config, s: System, step: Step, t: System)
    requires SchedulerNext(cfg, s, step, t) && !step.Handle? && !step.Advance? && !step.Cancel?
    ensures s.now <= t.now
  {
    match step
    case Begin(instant) => assert BeginStep(s, instant, t);
    case Receive => assert ReceiveStep(s, t);
    case EndConsume(candidates) => EndConsumeFrame(cfg, s, candidates, t);
    case MarkOutstanding => assert MarkStep(s, t);
    case TrySend => TrySendFrame(cfg, s, t);
    case Unmark => assert UnmarkStep(s, t);
    case RevealQuadrant(c, transition, derived) => assert t == s.(frontier := t.frontier);
  }

  lemma SchedulerQuiet(cfg: Config, s: System, step: Step, t: System, c: Coord)
    requires Invariant(s.Runtime()) && Core(cfg, s) && WithinBudget(cfg, s)
    requires SchedulerNext(cfg, s, step, t) && !FailsNow(s, step, c)
    ensures Quiet(s, t, c)
  {
    match step
    case Handle =>
      match s.control.event {
        case TaskCompleted(artifact) => CompletionQuiet(cfg, s, artifact, c);
        case TaskFailed(id) => FailureQuiet(cfg, s, id, c);
      }
    case Advance => AdvanceQuiet(cfg, s, c);
    case Cancel => CancelQuiet(cfg, s, c);
    case _ =>
      SchedulerFrame(cfg, s, step, t);
      NowAdvances(cfg, s, step, t);
  }

  lemma WorkerQuiet(cfg: Config, s: System, step: Step, t: System, c: Coord)
    requires WorkerNext(cfg, s, step, t)
    ensures Quiet(s, t, c)
  {
    WorkerFramed(cfg, s, step, t);
  }

  lemma StepFails(cfg: Config, s: System, step: Step, t: System, c: Coord, instants: seq<nat>)
    requires ReservationsMatch(cfg, s) && SchedulerNext(cfg, s, step, t) && FailsNow(s, step, c)
    requires EntryExact(cfg, s, c, instants)
    ensures EntryExact(cfg, t, c, instants + [s.now]) && s.now == t.now
  {
    FailureReleases(cfg, s, s.control.event.failed);
    HandledFrame(cfg, s, s.control.event);
    OneMoreFailure(cfg, RetryOf(s, c), instants, s.now);
  }

  /** No instant is later than the last one. */
  predicate LastIsLatest(instants: seq<nat>) {
    forall t :: t in instants ==> t <= instants[|instants| - 1]
  }

  /** The failures so far made the entry, none of them lies in the future, and they came in order. */
  ghost predicate History(cfg: Config, s: System, c: Coord, instants: seq<nat>) {
    && EntryExact(cfg, s, c, instants)
    && (forall t :: t in instants ==> t <= s.now)
    && LastIsLatest(instants)
  }

  lemma QuietKeepsHistory(cfg: Config, s: System, t: System, c: Coord, instants: seq<nat>)
    requires History(cfg, s, c, instants) && Quiet(s, t, c)
    ensures History(cfg, t, c, instants)
  {
  }

  lemma FailureExtendsHistory(cfg: Config, s: System, t: System, c: Coord, instants: seq<nat>)
    requires History(cfg, s, c, instants) && EntryExact(cfg, t, c, instants + [s.now]) && t.now == s.now
    ensures History(cfg, t, c, instants + [s.now])
  {
  }

  lemma SchedulerHistory(cfg: Config, s: System, step: Step, t: System, c: Coord, instants: seq<nat>)
    requires Invariant(s.Runtime()) && Core(cfg, s) && WithinBudget(cfg, s)
    requires SchedulerNext(cfg, s, step, t) && History(cfg, s, c, instants)
    ensures History(cfg, t, c, Extended(s, step, c, instants))
  {
    if FailsNow(s, step, c) {
      StepFails(cfg, s, step, t, c, instants);
      FailureExtendsHistory(cfg, s, t, c, instants);
    } else {
      SchedulerQuiet(cfg, s, step, t, c);
      QuietKeepsHistory(cfg, s, t, c, instants);
    }
  }

  lemma WorkerHistory(cfg: Config, s: System, step: Step, t: System, c: Coord, instants: seq<nat>)
    requires WorkerNext(cfg, s, step, t) && History(cfg, s, c, instants)
    ensures History(cfg, t, c, Extended(s, step, c, instants))
  {
    WorkerQuiet(cfg, s, step, t, c);
    QuietKeepsHistory(cfg, s, t, c, instants);
  }

  lemma StepHistory(cfg: Config, s: System, step: Step, t: System, c: Coord, instants: seq<nat>)
    requires Good(cfg, s) && Next(cfg, s, step, t) && History(cfg, s, c, instants)
    ensures History(cfg, t, c, Extended(s, step, c, instants))
  {
    if SchedulerNext(cfg, s, step, t) {
      SchedulerHistory(cfg, s, step, t, c, instants);
    } else {
      WorkerHistory(cfg, s, step, t, c, instants);
    }
  }

  // ----- Runs -----

  /** The instants at every moment of a run. */
  function Record(states: seq<System>, steps: seq<Step>, c: Coord): (record: seq<seq<nat>>)
    requires |states| == |steps| + 1
    ensures |record| == |states|
  {
    seq(|states|, n requires 0 <= n < |states| => FailureInstants(states, steps, c, n))
  }

  lemma RecordStep(states: seq<System>, steps: seq<Step>, c: Coord, n: nat)
    requires |states| == |steps| + 1 && n < |steps|
    ensures Record(states, steps, c)[n + 1] == Extended(states[n], steps[n], c, Record(states, steps, c)[n])
  {
  }

  lemma RunStepHistory(cfg: Config, states: seq<System>, steps: seq<Step>, c: Coord, n: nat, record: seq<seq<nat>>)
    requires ProtocolRun(cfg, states, steps) && n < |steps| && record == Record(states, steps, c)
    requires History(cfg, states[n], c, record[n])
    ensures History(cfg, states[n + 1], c, record[n + 1])
  {
    RunIsGood(cfg, states, steps, n);
    StepOfRun(cfg, states, steps, n);
    RecordStep(states, steps, c, n);
    StepHistory(cfg, states[n], steps[n], states[n + 1], c, record[n]);
  }

  lemma InitialHistory(cfg: Config, s: System, c: Coord)
    requires Initial(s)
    ensures History(cfg, s, c, [])
  {
  }

  lemma {:induction false} RunHistory(
    cfg: Config, states: seq<System>, steps: seq<Step>, c: Coord, n: nat, record: seq<seq<nat>>)
    requires ProtocolRun(cfg, states, steps) && n < |states| && record == Record(states, steps, c)
    ensures History(cfg, states[n], c, record[n])
  {
    if n == 0 {
      InitialHistory(cfg, states[0], c);
    } else {
      RunHistory(cfg, states, steps, c, n - 1, record);
      RunStepHistory(cfg, states, steps, c, n - 1, record);
    }
  }

  /** The quadrant whose turn it is, free and with the evaluation's budget not used up. */
  predicate Turn(s: System, c: Coord) {
    s.control.Scheduling? && s.control.loop.rest != [] && s.control.loop.rest[0] == c
    && s.control.loop.admitted < s.control.loop.budget
  }

  /** Not over the limit, and every failure at least a backoff old. */
  predicate Due(cfg: Config, instants: seq<nat>, now: nat) {
    && (|instants| <= cfg.maxRetries || cfg.maxRetries == U32_MAX)
    && forall t :: t in instants ==> t + cfg.backoff <= now
  }

  lemma DueIffAllowed(cfg: Config, s: System, c: Coord, instants: seq<nat>)
    requires EntryOf(cfg, RetryOf(s, c), instants) && LastIsLatest(instants)
    ensures RetryAllows(s, c) <==> Due(cfg, instants, s.now)
  {
    if instants != [] {
      assert instants[|instants| - 1] in instants;
    }
  }

  lemma TurnOutcome(cfg: Config, s: System, c: Coord)
    requires ReservationsMatch(cfg, s) && Turn(s, c)
    requires forall d: Coord :: d in s.control.loop.rest ==> s.frontier.PhaseOf(d) == Candidate
    ensures var next := s.control.loop.(rest := s.control.loop.rest[1..]);
            Advanced(cfg, s, s.control.loop)
              == if c !in s.slots && RetryAllows(s, c)
                 then s.(slots := s.slots[c := InFlight(cfg.IdentityOf(c))],
                         control := Reserved(cfg.IdentityOf(c), next))
                 else s.(control := Scheduling(next))
  {
    assert c in s.control.loop.rest;
    assert s.frontier.PhaseOf(c) == Candidate;
  }

  /** What a turn leads to. */
  function AfterTurn(cfg: Config, s: System, c: Coord, instants: seq<nat>): System
    requires Turn(s, c)
  {
    var next := s.control.loop.(rest := s.control.loop.rest[1..]);
    if c !in s.slots && Due(cfg, instants, s.now)
    then s.(slots := s.slots[c := InFlight(cfg.IdentityOf(c))], control := Reserved(cfg.IdentityOf(c), next))
    else s.(control := Scheduling(next))
  }

  lemma TurnDecided(cfg: Config, s: System, c: Coord, instants: seq<nat>)
    requires ReservationsMatch(cfg, s) && Turn(s, c) && History(cfg, s, c, instants)
    requires forall d: Coord :: d in s.control.loop.rest ==> s.frontier.PhaseOf(d) == Candidate
    ensures Advanced(cfg, s, s.control.loop) == AfterTurn(cfg, s, c, instants)
  {
    TurnOutcome(cfg, s, c);
    if c !in s.slots {
      DueIffAllowed(cfg, s, c, instants);
    }
  }

  /** The quadrant whose turn comes is reserved if and only if it is free, has not failed more than the
      limit allows, and each of its failures, handled anywhere earlier in the run, is at least one
      backoff old.  Otherwise the scheduler passes on and changes nothing else. */
  lemma ReservedIffDue(cfg: Config, states: seq<System>, steps: seq<Step>, j: nat, c: Coord)
    requires ProtocolRun(cfg, states, steps) && j < |steps|
    requires steps[j] == Advance && Turn(states[j], c)
    ensures states[j + 1] == AfterTurn(cfg, states[j], c, FailureInstants(states, steps, c, j))
  {
    RunIsGood(cfg, states, steps, j);
    RunHistory(cfg, states, steps, c, j, Record(states, steps, c));
    StepOfRun(cfg, states, steps, j);
    TurnDecided(cfg, states[j], c, FailureInstants(states, steps, c, j));
  }

  lemma {:induction false} InstantOfFailure(states: seq<System>, steps: seq<Step>, c: Coord, i: nat, n: nat)
    requires i < n <= |steps| < |states| && FailsNow(states[i], steps[i], c)
    ensures states[i].now in FailureInstants(states, steps, c, n)
  {
    if i < n - 1 {
      InstantOfFailure(states, steps, c, i, n - 1);
    }
  }

  lemma RevealKeepsControl(
    s: System, c: Coord, transition: TransitionRecord, derived: seq<Coord>, t: System)
    requires RevealStep(s, c, transition, derived, t)
    ensures t.control == s.control
  {
    assert t == s.(frontier := t.frontier);
  }

  lemma PlainStepsReserveNothing(cfg: Config, s: System, step: Step, t: System)
    requires SchedulerNext(cfg, s, step, t)
    requires step.Begin? || step.Receive? || step.EndConsume? || step.MarkOutstanding? || step.TrySend? || step.Unmark?
    ensures !t.control.Reserved?
  {
    match step
    case Begin(instant) => assert BeginStep(s, instant, t);
    case Receive => assert ReceiveStep(s, t);
    case EndConsume(candidates) => EndConsumeControl(cfg, s, candidates, t);
    case MarkOutstanding => assert MarkStep(s, t);
    case TrySend => assert TrySendStep(cfg, s, t);
    case Unmark => assert UnmarkStep(s, t);
  }

  lemma OnlyAdvanceReserves(cfg: Config, s: System, step: Step, t: System)
    requires Next(cfg, s, step, t) && t.control.Reserved? && !s.control.Reserved?
    ensures step == Advance && s.control.Scheduling? && t == Advanced(cfg, s, s.control.loop)
  {
    if WorkerNext(cfg, s, step, t) {
      WorkerFramed(cfg, s, step, t);
    } else {
      match step
      case Advance =>
      case Handle => HandledFrame(cfg, s, s.control.event);
      case Cancel => CancelledFrame(s, s.control.id, s.control.closed);
      case RevealQuadrant(c, transition, derived) => RevealKeepsControl(s, c, transition, derived, t);
      case _ => PlainStepsReserveNothing(cfg, s, step, t);
    }
  }

  lemma ReservedAtTurn(cfg: Config, s: System)
    requires ReservationsMatch(cfg, s) && s.control.Scheduling?
    requires forall d: Coord :: d in s.control.loop.rest ==> s.frontier.PhaseOf(d) == Candidate
    requires Advanced(cfg, s, s.control.loop).control.Reserved?
    ensures s.control.loop.rest != [] && Turn(s, s.control.loop.rest[0])
    ensures Advanced(cfg, s, s.control.loop).control.id == cfg.IdentityOf(s.control.loop.rest[0])
  {
    AdvanceOutcome(cfg, s, s.control.loop);
  }

  lemma ReservationTurn(cfg: Config, states: seq<System>, steps: seq<Step>, j: nat, c: Coord)
    requires ProtocolRun(cfg, states, steps) && j < |steps|
    requires !states[j].control.Reserved? && states[j + 1].control.Reserved?
             && states[j + 1].control.id.coord == c
    ensures steps[j] == Advance && Turn(states[j], c)
  {
    RunIsGood(cfg, states, steps, j);
    StepOfRun(cfg, states, steps, j);
    OnlyAdvanceReserves(cfg, states[j], steps[j], states[j + 1]);
    ReservedAtTurn(cfg, states[j]);
  }

  lemma DueAfterBackoff(cfg: Config, s: System, c: Coord, instants: seq<nat>, t: nat)
    requires Turn(s, c) && t in instants && AfterTurn(cfg, s, c, instants).control.Reserved?
    ensures t + cfg.backoff <= s.now
  {
  }

  /** A failed quadrant waits out its backoff: whatever happens in between, a reservation after a failure
      handled at some instant comes no earlier than one backoff later. */
  lemma FailureWaitsBackoff(cfg: Config, states: seq<System>, steps: seq<Step>, i: nat, j: nat, c: Coord)
    requires ProtocolRun(cfg, states, steps) && i < j < |steps|
    requires FailsNow(states[i], steps[i], c)
    requires !states[j].control.Reserved? && states[j + 1].control.Reserved?
             && states[j + 1].control.id.coord == c
    ensures states[i].now + cfg.backoff <= states[j].now
  {
    ReservationTurn(cfg, states, steps, j, c);
    ReservedIffDue(cfg, states, steps, j, c);
    InstantOfFailure(states, steps, c, i, j);
    DueAfterBackoff(cfg, states[j], c, FailureInstants(states, steps, c, j), states[i].now);
  }

  /** How an evaluation that has consumed its results goes on: over all Candidates in row-major order,
      with the largest number of submissions that keeps to both limits, or not at all when that is none. */
  lemma EvaluationOpens(cfg: Config, s: System, candidates: seq<Coord>, t: System, budget: nat)
    requires SchedulerNext(cfg, s, EndConsume(candidates), t) && !s.worker.ResultsClosed()
    requires Occupied(s) <= cfg.maxPrepared
    requires budget <= cfg.maxSubmissions && Occupied(s) + budget <= cfg.maxPrepared
    requires budget == cfg.maxSubmissions || Occupied(s) + budget == cfg.maxPrepared
    ensures RowMajor(candidates) && forall c: Coord :: c in candidates <==> s.frontier.PhaseOf(c) == Candidate
    ensures t == s.(control := if budget == 0 then Resting else Scheduling(Loop(candidates, 0, budget)))
  {
    assert EndConsumeStep(cfg, s, candidates, t);
  }
}
