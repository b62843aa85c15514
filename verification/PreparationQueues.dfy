/** The queues between scheduler and worker over every run: their bounds, their order, and how much one
    evaluation submits (apps/world-server/src/preparation_scheduler.rs, crates/preparation/src/lib.rs). */
module PreparationQueues {
  import opened MachineInts
  import opened Lattice
  import opened Frontier
  import opened QuadrantPreparation
  import opened PreparationProtocol
  import opened PreparationRuns

  /** What went into and out of both queues so far, and what the evaluation under way admitted. */
  datatype Flow = Flow(sent: seq<Identity>, taken: seq<Identity>, delivered: seq<Event>, committed: seq<Event>,
                       admitted: nat)

  const STILL := Flow([], [], [], [], 0)

  /** The submission of this step finds room in the queue of a worker that still takes requests. */
  predicate Sends(cfg: Config, s: System, step: Step) {
    step.TrySend? && s.control.Submitting? && s.worker != Stopped && |s.requests| < cfg.requestCapacity
  }

  /** The submission of this step names an identity that the worker still accounts for. */
  predicate Repeats(s: System, step: Step) {
    step.MarkOutstanding? && s.control.Reserved? && s.control.id in s.outstanding
  }

  /** One step more. */
  function Flowed(cfg: Config, s: System, step: Step, flow: Flow): Flow {
    Flow(
      if Sends(cfg, s, step) then flow.sent + [s.control.id] else flow.sent,
      if step.Take? && s.requests != [] then flow.taken + [s.requests[0]] else flow.taken,
      if step.Deliver? && s.worker.Delivering? then flow.delivered + [s.worker.event] else flow.delivered,
      if step.Handle? && s.control.Handling? then flow.committed + [s.control.event] else flow.committed,
      if step.Begin? then 0
      else if Sends(cfg, s, step) || Repeats(s, step) then flow.admitted + 1
      else flow.admitted)
  }

  function Flows(cfg: Config, states: seq<System>, steps: seq<Step>, n: nat): Flow
    requires n <= |steps| < |states|
  {
    if n == 0 then STILL else Flowed(cfg, states[n - 1], steps[n - 1], Flows(cfg, states, steps, n - 1))
  }

  // ----- What holds between the queues and what went through them -----

  function InHand(control: Control): seq<Event> {
    if control.Handling? then [control.event] else []
  }

  predicate QueuesBounded(cfg: Config, s: System) {
    |s.requests| <= cfg.requestCapacity && |s.tasks| <= cfg.maxInFlight && |s.results| <= cfg.resultCapacity
  }

  predicate FirstInFirstOut(s: System, flow: Flow) {
    && (s.worker != Stopped ==> flow.sent == flow.taken + s.requests)
    && (s.worker == Stopped ==> flow.taken <= flow.sent && s.requests == [])
    && flow.delivered == flow.committed + InHand(s.control) + s.results
  }

  predicate AdmissionsCounted(cfg: Config, control: Control, admitted: nat) {
    match control
    case Consuming => admitted == 0
    case Handling(_) => admitted == 0
    case Scheduling(loop) => admitted == loop.admitted <= loop.budget <= cfg.maxSubmissions
    case Reserved(_, loop) => admitted == loop.admitted < loop.budget <= cfg.maxSubmissions
    case Submitting(_, loop) => admitted == loop.admitted < loop.budget <= cfg.maxSubmissions
    case _ => admitted <= cfg.maxSubmissions
  }

  predicate FlowHolds(cfg: Config, s: System, flow: Flow) {
    QueuesBounded(cfg, s) && FirstInFirstOut(s, flow) && AdmissionsCounted(cfg, s.control, flow.admitted)
  }

  // ----- The scheduler's steps -----

  /** The step moves nothing between the queues. */
  lemma StillFlows(cfg: Config, s: System, t: System, flow: Flow, admitted: nat)
    requires FlowHolds(cfg, s, flow) && SamePipes(s, t) && !s.control.Handling? && !t.control.Handling?
    requires AdmissionsCounted(cfg, t.control, admitted)
    ensures FlowHolds(cfg, t, flow.(admitted := admitted))
  {
  }

  lemma HandleFlows(cfg: Config, s: System, flow: Flow)
    requires FlowHolds(cfg, s, flow) && s.control.Handling?
    ensures FlowHolds(cfg, Handled(cfg, s, s.control.event), Flowed(cfg, s, Handle, flow))
  {
    HandledFrame(cfg, s, s.control.event);
    var event := s.control.event;
    assert flow.committed + [event] + s.results == flow.committed + [event] + [] + s.results;
  }

  lemma ReceiveFlows(cfg: Config, s: System, t: System, flow: Flow)
    requires FlowHolds(cfg, s, flow) && ReceiveStep(s, t)
    ensures FlowHolds(cfg, t, Flowed(cfg, s, Receive, flow))
  {
    assert flow.committed + [] + s.results == flow.committed + [s.results[0]] + s.results[1..];
  }

  lemma BeginFlows(cfg: Config, s: System, instant: nat, t: System, flow: Flow)
    requires FlowHolds(cfg, s, flow) && BeginStep(s, instant, t)
    ensures FlowHolds(cfg, t, Flowed(cfg, s, Begin(instant), flow))
  {
    StillFlows(cfg, s, t, flow, 0);
  }

  lemma EndConsumeFlows(cfg: Config, s: System, candidates: seq<Coord>, t: System, flow: Flow)
    requires FlowHolds(cfg, s, flow) && EndConsumeStep(cfg, s, candidates, t)
    ensures FlowHolds(cfg, t, Flowed(cfg, s, EndConsume(candidates), flow))
  {
    EndConsumeFrame(cfg, s, candidates, t);
    StillFlows(cfg, s, t, flow, flow.admitted);
  }

  lemma AdvanceFlows(cfg: Config, s: System, flow: Flow)
    requires FlowHolds(cfg, s, flow) && s.control.Scheduling?
    ensures FlowHolds(cfg, Advanced(cfg, s, s.control.loop), Flowed(cfg, s, Advance, flow))
  {
    var loop := s.control.loop;
    AdvancedFrame(cfg, s, loop);
    ConsideredCounts(cfg, s, loop, flow.admitted);
    StillFlows(cfg, s, Advanced(cfg, s, loop), flow, flow.admitted);
  }

  /** Looking at the next candidate keeps the count, and reserves only within the budget. */
  lemma ConsideredCounts(cfg: Config, s: System, loop: Loop, admitted: nat)
    requires AdmissionsCounted(cfg, Scheduling(loop), admitted)
    ensures AdmissionsCounted(cfg, Considered(cfg, s, loop).1, admitted)
  {
  }

  lemma MarkFlows(cfg: Config, s: System, t: System, flow: Flow)
    requires FlowHolds(cfg, s, flow) && MarkStep(s, t)
    ensures FlowHolds(cfg, t, Flowed(cfg, s, MarkOutstanding, flow))
  {
    MarkFrame(s, t);
    StillFlows(cfg, s, t, flow, if Repeats(s, MarkOutstanding) then flow.admitted + 1 else flow.admitted);
  }

  lemma TrySendFlows(cfg: Config, s: System, t: System, flow: Flow)
    requires FlowHolds(cfg, s, flow) && TrySendStep(cfg, s, t)
    ensures FlowHolds(cfg, t, Flowed(cfg, s, TrySend, flow))
  {
    if Sends(cfg, s, TrySend) {
      assert flow.sent + [s.control.id] == flow.taken + (s.requests + [s.control.id]);
    } else {
      StillFlows(cfg, s, t, flow, flow.admitted);
    }
  }

  lemma UndoFlows(cfg: Config, s: System, step: Step, t: System, flow: Flow)
    requires FlowHolds(cfg, s, flow) && SchedulerNext(cfg, s, step, t) && (step.Unmark? || step.Cancel?)
    ensures FlowHolds(cfg, t, Flowed(cfg, s, step, flow))
  {
    if step.Cancel? {
      CancelledFrame(s, s.control.id, s.control.closed);
    } else {
      assert UnmarkStep(s, t);
    }
    StillFlows(cfg, s, t, flow, flow.admitted);
  }

  lemma RevealFlows(cfg: Config, s: System, step: Step, t: System, flow: Flow)
    requires FlowHolds(cfg, s, flow) && SchedulerNext(cfg, s, step, t) && step.RevealQuadrant?
    ensures FlowHolds(cfg, t, Flowed(cfg, s, step, flow))
  {
    assert t == s.(frontier := t.frontier);
    StillFlows(cfg, s, t, flow, flow.admitted);
  }

  lemma SchedulerFlows(cfg: Config, s: System, step: Step, t: System, flow: Flow)
    requires FlowHolds(cfg, s, flow) && SchedulerNext(cfg, s, step, t)
    ensures FlowHolds(cfg, t, Flowed(cfg, s, step, flow))
  {
    match step
    case Begin(instant) => BeginFlows(cfg, s, instant, t, flow);
    case Receive => ReceiveFlows(cfg, s, t, flow);
    case Handle => HandleFlows(cfg, s, flow);
    case EndConsume(candidates) => EndConsumeFlows(cfg, s, candidates, t, flow);
    case Advance => AdvanceFlows(cfg, s, flow);
    case MarkOutstanding => MarkFlows(cfg, s, t, flow);
    case TrySend => TrySendFlows(cfg, s, t, flow);
    case Unmark => UndoFlows(cfg, s, step, t, flow);
    case Cancel => UndoFlows(cfg, s, step, t, flow);
    case RevealQuadrant(_, _, _) => RevealFlows(cfg, s, step, t, flow);
  }

  // ----- The worker's steps -----

  lemma TakeFlows(cfg: Config, s: System, t: System, flow: Flow)
    requires FlowHolds(cfg, s, flow) && TakeStep(cfg, s, t)
    ensures FlowHolds(cfg, t, Flowed(cfg, s, Take, flow))
  {
    assert flow.taken + s.requests == flow.taken + [s.requests[0]] + s.requests[1..];
  }

  lemma DeliverFlows(cfg: Config, s: System, t: System, flow: Flow)
    requires FlowHolds(cfg, s, flow) && DeliverStep(cfg, s, t)
    ensures FlowHolds(cfg, t, Flowed(cfg, s, Deliver, flow))
  {
    var event := s.worker.event;
    assert flow.committed + InHand(s.control) + s.results + [event]
        == flow.committed + InHand(s.control) + (s.results + [event]);
  }

  /** The worker's other steps move its tasks, or drop what was queued when it stops. */
  lemma TaskFlows(cfg: Config, s: System, step: Step, t: System, flow: Flow)
    requires FlowHolds(cfg, s, flow) && WorkerNext(cfg, s, step, t) && !step.Take? && !step.Deliver?
    ensures FlowHolds(cfg, t, Flowed(cfg, s, step, flow))
  {
    WorkerFramed(cfg, s, step, t);
    assert flow.taken <= flow.taken + s.requests;
  }

  lemma WorkerFlows(cfg: Config, s: System, step: Step, t: System, flow: Flow)
    requires FlowHolds(cfg, s, flow) && WorkerNext(cfg, s, step, t)
    ensures FlowHolds(cfg, t, Flowed(cfg, s, step, flow))
  {
    match step
    case Take => TakeFlows(cfg, s, t, flow);
    case Deliver => DeliverFlows(cfg, s, t, flow);
    case _ => TaskFlows(cfg, s, step, t, flow);
  }

  // ----- Runs -----

  lemma StepFlows(cfg: Config, s: System, step: Step, t: System, flow: Flow)
    requires FlowHolds(cfg, s, flow) && Next(cfg, s, step, t)
    ensures FlowHolds(cfg, t, Flowed(cfg, s, step, flow))
  {
    if SchedulerNext(cfg, s, step, t) {
      SchedulerFlows(cfg, s, step, t, flow);
    } else {
      WorkerFlows(cfg, s, step, t, flow);
    }
  }

  lemma {:induction false} RunFlows(cfg: Config, states: seq<System>, steps: seq<Step>, n: nat, record: seq<Flow>)
    requires ProtocolRun(cfg, states, steps) && n <= |steps| && record == Record(cfg, states, steps)
    ensures FlowHolds(cfg, states[n], record[n])
  {
    if n > 0 {
      RunFlows(cfg, states, steps, n - 1, record);
      StepOfRun(cfg, states, steps, n - 1);
      RecordStep(cfg, states, steps, n - 1);
      StepFlows(cfg, states[n - 1], steps[n - 1], states[n], record[n - 1]);
    }
  }

  function Record(cfg: Config, states: seq<System>, steps: seq<Step>): (record: seq<Flow>)
    requires |states| == |steps| + 1
    ensures |record| == |states|
  {
    seq(|states|, n requires 0 <= n < |states| => Flows(cfg, states, steps, n))
  }

  lemma RecordStep(cfg: Config, states: seq<System>, steps: seq<Step>, n: nat)
    requires |states| == |steps| + 1 && n < |steps|
    ensures Record(cfg, states, steps)[n + 1] == Flowed(cfg, states[n], steps[n], Record(cfg, states, steps)[n])
  {
  }

  /** In every run: no queue exceeds its capacity; while the worker runs, the requests it took are those that
      were sent, in their order, and the rest still wait; and the results are committed in the order in which
      they were delivered, none lost and none twice. */
  lemma QueuesKeepOrder(cfg: Config, states: seq<System>, steps: seq<Step>, n: nat)
    requires ProtocolRun(cfg, states, steps) && n <= |steps|
    ensures var (s, flow) := (states[n], Flows(cfg, states, steps, n));
            && |s.requests| <= cfg.requestCapacity && |s.tasks| <= cfg.maxInFlight && |s.results| <= cfg.resultCapacity
            && flow.taken <= flow.sent
            && (s.worker != Stopped ==> flow.sent == flow.taken + s.requests)
            && flow.delivered
                 == flow.committed + (if s.control.Handling? then [s.control.event] else []) + s.results
  {
    RunFlows(cfg, states, steps, n, Record(cfg, states, steps));
  }

  /** One evaluation admits at most `maxSubmissions` quadrants, and it stops looking at candidates only when
      it has looked at all, its budget is used up, or a submission found no room. */
  lemma EvaluationAdmits(cfg: Config, states: seq<System>, steps: seq<Step>, n: nat)
    requires ProtocolRun(cfg, states, steps) && n <= |steps|
    ensures Flows(cfg, states, steps, n).admitted <= cfg.maxSubmissions
    ensures states[n].control.Scheduling? ==>
              Flows(cfg, states, steps, n).admitted == states[n].control.loop.admitted
    ensures n < |steps| && steps[n] == Advance ==>
              var loop := states[n].control.loop;
              states[n + 1].control == Resting <==>
                loop.rest == [] || Flows(cfg, states, steps, n).admitted == loop.budget
  {
    RunFlows(cfg, states, steps, n, Record(cfg, states, steps));
    if n < |steps| && steps[n] == Advance {
      StepOfRun(cfg, states, steps, n);
      RestsIff(cfg, states[n], states[n].control.loop);
    }
  }

  lemma RestsIff(cfg: Config, s: System, loop: Loop)
    ensures Considered(cfg, s, loop).1 == Resting <==> loop.rest == [] || loop.admitted >= loop.budget
  {
  }
}
