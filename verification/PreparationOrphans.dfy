/** The outstanding set through a worker's end, and when a submission is a duplicate
    (apps/world-server/src/preparation_scheduler.rs, crates/preparation/src/lib.rs). */
module PreparationOrphans {
  import opened MachineInts
  import opened Lattice
  import opened Frontier
  import opened QuadrantPreparation
  import opened FrontierRuntimes
  import opened PreparationProtocol
  import opened PreparationRuns

  /** A submission that a lost worker will never answer: its slot stays in flight, no event about it is
      on its way, and the scheduler is neither submitting it again nor undoing it. */
  ghost predicate Orphan(s: System, id: Identity) {
    && id.coord in s.slots && s.slots[id.coord] == InFlight(id)
    && id !in EventOwners(s.results)
    && (s.control.Handling? ==> s.control.event.Owner() != id)
    && (s.control.Reserved? || s.control.Cancelling? ==> s.control.id != id)
  }

  /** What is outstanding with a lost worker is orphaned. */
  ghost predicate OnlyOrphans(s: System) {
    !s.worker.Working() ==> forall id :: id in s.outstanding ==> Orphan(s, id)
  }

  lemma WorkerKeepsOrphans(cfg: Config, s: System, step: Step, t: System)
    requires OnlyOrphans(s) && WorkerNext(cfg, s, step, t)
    ensures OnlyOrphans(t)
  {
    if !s.worker.Working() {
      assert t.outstanding == s.outstanding && t.results == s.results && t.slots == s.slots && t.control == s.control;
    } else if !t.worker.Working() {
      assert t.outstanding == {};
    }
  }

  // The scheduler's steps, while the worker is lost

  lemma ReceiveKeepsOrphan(s: System, t: System, id: Identity)
    requires Orphan(s, id) && ReceiveStep(s, t)
    ensures Orphan(t, id)
  {
    var owners := EventOwners(s.results);
    assert owners[0] == s.results[0].Owner() && owners[1..] == EventOwners(t.results);
  }

  lemma HandleKeepsOrphan(cfg: Config, s: System, id: Identity)
    requires Safe(cfg, s) && s.control.Handling? && Orphan(s, id)
    ensures Orphan(Handled(cfg, s, s.control.event), id)
  {
    var event := s.control.event;
    HandledFrame(cfg, s, event);
    HandledSlots(cfg, s, event);
    HeldEventCounts(s, event);
  }

  /** Every slot but that of the quadrant stays. */
  ghost predicate OtherSlotsStay(before: Slots, after: Slots, c: Coord) {
    forall d :: d in before && d != c ==> d in after && after[d] == before[d]
  }

  /** Committing an event touches the slot of its own quadrant only. */
  lemma HandledSlots(cfg: Config, s: System, event: Event)
    requires Safe(cfg, s) && s.control == Handling(event)
    ensures OtherSlotsStay(s.slots, Handled(cfg, s, event).slots, event.Owner().coord)
  {
    match event {
      case TaskCompleted(artifact) => CompletedSlots(cfg, s, artifact);
      case TaskFailed(failed) => FailedSlots(cfg, s, failed);
    }
  }

  lemma CompletedSlots(cfg: Config, s: System, artifact: Artifact)
    requires Invariant(s.Runtime()) && Core(cfg, s) && s.control == Handling(TaskCompleted(artifact))
    ensures OtherSlotsStay(s.slots, Handled(cfg, s, TaskCompleted(artifact)).slots, artifact.identity.coord)
  {
    CompletionCommits(cfg, s, artifact);
  }

  lemma FailedSlots(cfg: Config, s: System, failed: Identity)
    requires ReservationsMatch(cfg, s) && s.control == Handling(TaskFailed(failed))
    ensures OtherSlotsStay(s.slots, Handled(cfg, s, TaskFailed(failed)).slots, failed.coord)
  {
    FailureReleases(cfg, s, failed);
  }

  lemma AdvanceKeepsOrphan(cfg: Config, s: System, id: Identity)
    requires s.control.Scheduling? && Orphan(s, id)
    ensures Orphan(Advanced(cfg, s, s.control.loop), id)
  {
    AdvancedFrame(cfg, s, s.control.loop);
  }

  lemma CancelKeepsOrphan(cfg: Config, s: System, id: Identity)
    requires Safe(cfg, s) && s.control.Cancelling? && Orphan(s, id)
    ensures Orphan(Cancelled(s, s.control.id, s.control.closed), id)
  {
    CancelOutcome(cfg, s);
    assert s.control.id.coord != id.coord;
  }

  /** A reservation under way is never an orphan's, so marking it adds a new one. */
  lemma MarkKeepsOrphans(cfg: Config, s: System, t: System)
    requires Safe(cfg, s) && OnlyOrphans(s) && !s.worker.Working() && MarkStep(s, t)
    ensures OnlyOrphans(t)
  {
    ReservedIsOnItsWay(cfg, s);
    MarkFrame(s, t);
    MarkedIsOrphan(s, t);
    forall id | id in t.outstanding && id != s.control.id
      ensures Orphan(t, id)
    {
      MarkKeepsOrphan(s, t, id);
    }
  }

  lemma MarkKeepsOrphan(s: System, t: System, id: Identity)
    requires MarkStep(s, t) && Orphan(s, id)
    ensures Orphan(t, id)
  {
  }

  lemma MarkedIsOrphan(s: System, t: System)
    requires MarkStep(s, t) && s.control.id.coord in s.slots && s.slots[s.control.id.coord] == InFlight(s.control.id)
    requires s.control.id !in EventOwners(s.results)
    ensures Orphan(t, s.control.id)
  {
  }

  /** A reservation under way is in flight, and no event is about it. */
  lemma ReservedIsOnItsWay(cfg: Config, s: System)
    requires Safe(cfg, s) && s.control.Reserved?
    ensures s.control.id.coord in s.slots && s.slots[s.control.id.coord] == InFlight(s.control.id)
    ensures s.control.id !in EventOwners(s.results) && WorkerCount(s, s.control.id) == 0
  {
    assert PipelineCount(s, s.control.id) == 0;
  }

  predicate IsOther(step: Step) {
    step.Begin? || step.EndConsume? || step.TrySend? || step.Unmark? || step.RevealQuadrant?
  }

  /** Slots and results stay, and no identity is taken up but that of a rollback, which is no longer
      outstanding. */
  ghost predicate Untouched(s: System, t: System) {
    && t.slots == s.slots && t.results == s.results
    && !t.control.Handling? && !t.control.Reserved?
    && (t.control.Cancelling? ==> t.control.id !in t.outstanding)
  }

  lemma EndConsumeTouchesNothing(cfg: Config, s: System, candidates: seq<Coord>, t: System)
    requires EndConsumeStep(cfg, s, candidates, t)
    ensures Untouched(s, t) && t.worker == s.worker && t.outstanding == s.outstanding
  {
  }

  lemma TrySendTouchesNothing(cfg: Config, s: System, t: System)
    requires TrySendStep(cfg, s, t)
    ensures Untouched(s, t) && t.worker == s.worker && t.outstanding == s.outstanding
  {
  }

  lemma OtherFrame(cfg: Config, s: System, step: Step, t: System)
    requires SchedulerNext(cfg, s, step, t) && IsOther(step)
    ensures Untouched(s, t)
  {
    match step {
      case EndConsume(candidates) => EndConsumeTouchesNothing(cfg, s, candidates, t);
      case TrySend => TrySendTouchesNothing(cfg, s, t);
      case _ =>
    }
  }

  lemma OtherKeepsOrphan(cfg: Config, s: System, step: Step, t: System, id: Identity)
    requires Orphan(s, id) && SchedulerNext(cfg, s, step, t) && id in t.outstanding
    requires IsOther(step)
    ensures Orphan(t, id)
  {
    OtherFrame(cfg, s, step, t);
  }

  lemma StepKeepsOrphan(cfg: Config, s: System, step: Step, t: System, id: Identity)
    requires Safe(cfg, s) && Orphan(s, id) && SchedulerNext(cfg, s, step, t) && id in t.outstanding
    requires !step.MarkOutstanding?
    ensures Orphan(t, id)
  {
    match step {
      case Receive => ReceiveKeepsOrphan(s, t, id);
      case Handle => HandleKeepsOrphan(cfg, s, id);
      case Advance => AdvanceKeepsOrphan(cfg, s, id);
      case Cancel => CancelKeepsOrphan(cfg, s, id);
      case _ => OtherKeepsOrphan(cfg, s, step, t, id);
    }
  }

  lemma SchedulerKeepsOrphans(cfg: Config, s: System, step: Step, t: System)
    requires Safe(cfg, s) && OnlyOrphans(s) && SchedulerNext(cfg, s, step, t) && !s.worker.Working()
    ensures OnlyOrphans(t)
  {
    if step.MarkOutstanding? {
      MarkKeepsOrphans(cfg, s, t);
    } else {
      SchedulerFrame(cfg, s, step, t);
      forall id | id in t.outstanding
        ensures Orphan(t, id)
      {
        StepKeepsOrphan(cfg, s, step, t, id);
      }
    }
  }

  /** The scheduler moves no worker, and only marking adds to the outstanding set. */
  lemma SchedulerFrame(cfg: Config, s: System, step: Step, t: System)
    requires SchedulerNext(cfg, s, step, t)
    ensures t.worker == s.worker
    ensures !step.MarkOutstanding? ==> t.outstanding <= s.outstanding
  {
    match step {
      case Handle => HandledFrame(cfg, s, s.control.event);
      case Advance => AdvancedFrame(cfg, s, s.control.loop);
      case Cancel => CancelledFrame(s, s.control.id, s.control.closed);
      case EndConsume(candidates) => EndConsumeTouchesNothing(cfg, s, candidates, t);
      case TrySend => TrySendTouchesNothing(cfg, s, t);
      case _ =>
    }
  }

  lemma NextKeepsOrphans(cfg: Config, s: System, step: Step, t: System)
    requires Safe(cfg, s) && OnlyOrphans(s) && Next(cfg, s, step, t)
    ensures OnlyOrphans(t)
  {
    if WorkerNext(cfg, s, step, t) {
      WorkerKeepsOrphans(cfg, s, step, t);
    } else if s.worker.Working() {
      SchedulerFrame(cfg, s, step, t);
    } else {
      SchedulerKeepsOrphans(cfg, s, step, t);
    }
  }

  /** In every run, what is outstanding with a lost worker is orphaned. */
  lemma {:induction false} RunHasOnlyOrphans(cfg: Config, states: seq<System>, steps: seq<Step>, i: nat)
    requires ProtocolRun(cfg, states, steps) && i < |states|
    ensures OnlyOrphans(states[i])
  {
    if i > 0 {
      RunHasOnlyOrphans(cfg, states, steps, i - 1);
      RunStepKeepsOrphans(cfg, states, steps, i - 1);
    }
  }

  lemma RunStepKeepsOrphans(cfg: Config, states: seq<System>, steps: seq<Step>, i: nat)
    requires ProtocolRun(cfg, states, steps) && i < |steps| && OnlyOrphans(states[i])
    ensures OnlyOrphans(states[i + 1])
  {
    RunIsGood(cfg, states, steps, i);
    StepOfRun(cfg, states, steps, i);
    NextKeepsOrphans(cfg, states[i], steps[i], states[i + 1]);
  }

  /** A submission is a duplicate exactly while the worker has delivered that identity's last event and not
      yet released it; with a worker that is ending or gone none is. */
  lemma DuplicateIff(cfg: Config, states: seq<System>, steps: seq<Step>, i: nat)
    requires ProtocolRun(cfg, states, steps) && i < |states| && states[i].control.Reserved?
    ensures states[i].control.id in states[i].outstanding <==> states[i].worker == Releasing(states[i].control.id)
  {
    RunIsGood(cfg, states, steps, i);
    RunHasOnlyOrphans(cfg, states, steps, i);
    DuplicateIffIn(cfg, states[i]);
  }

  lemma DuplicateIffIn(cfg: Config, s: System)
    requires Safe(cfg, s) && OnlyOrphans(s) && s.control.Reserved?
    ensures s.control.id in s.outstanding <==> s.worker == Releasing(s.control.id)
  {
    ReservedIsOnItsWay(cfg, s);
  }
}
