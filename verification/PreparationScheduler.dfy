/** The scheduler's evaluation as the code writes it, loop by loop: every state it goes through is
    one of the protocol's (apps/world-server/src/preparation_scheduler.rs,
    crates/preparation/src/lib.rs). */
module PreparationScheduling {
  import opened MachineInts
  import opened Lattice
  import opened Frontier
  import opened QuadrantPreparation
  import opened FrontierReveal
  import opened FrontierRuntimes
  import opened PreparationProtocol
  import opened PreparationRuns

  // ----- Reachability by steps -----

  /** A state the protocol can get into from a fresh start. */
  ghost predicate Reachable(cfg: Config, s: System) {
    exists states, steps :: ProtocolRun(cfg, states, steps) && states[|steps|] == s
  }

  lemma ReachableIsGood(cfg: Config, s: System)
    requires Reachable(cfg, s)
    ensures Good(cfg, s)
  {
    var states, steps :| ProtocolRun(cfg, states, steps) && states[|steps|] == s;
    RunIsGood(cfg, states, steps, |steps|);
  }

  lemma RunOn(cfg: Config, states: seq<System>, steps: seq<Step>, s: System, step: Step, t: System)
    requires ProtocolRun(cfg, states, steps) && states[|steps|] == s && Next(cfg, s, step, t)
    ensures ProtocolRun(cfg, states + [t], steps + [step])
  {
    var all, allSteps := states + [t], steps + [step];
    forall i | 0 <= i < |allSteps|
      ensures Next(cfg, all[i], allSteps[i], all[i + 1])
    {
      if i < |steps| {
        StepOfRun(cfg, states, steps, i);
      }
    }
  }

  lemma StepReachable(cfg: Config, s: System, step: Step, t: System)
    requires Reachable(cfg, s) && Next(cfg, s, step, t)
    ensures Reachable(cfg, t)
  {
    var states, steps :| ProtocolRun(cfg, states, steps) && states[|steps|] == s;
    RunOn(cfg, states, steps, s, step, t);
    assert (states + [t])[|steps + [step]|] == t;
  }

  // ----- One evaluation as a path of scheduler steps -----

  predicate Busy(control: Control) { !control.Resting? && !control.Bailed? }

  /** Scheduler steps only, none of them from rest. */
  ghost predicate SchedulerPath(cfg: Config, states: seq<System>, steps: seq<Step>) {
    && |states| == |steps| + 1
    && forall i {:trigger steps[i]} :: 0 <= i < |steps| ==>
         Busy(states[i].control) && SchedulerNext(cfg, states[i], steps[i], states[i + 1])
  }

  /** The scheduler alone gets from `s` to `t` within one evaluation. */
  ghost predicate Proceeds(cfg: Config, s: System, t: System) {
    exists states, steps :: SchedulerPath(cfg, states, steps) && states[0] == s && states[|steps|] == t
  }

  lemma ProceedsItself(cfg: Config, s: System)
    ensures Proceeds(cfg, s, s)
  {
    assert SchedulerPath(cfg, [s], []);
  }

  lemma ProceedsStep(cfg: Config, s: System, step: Step, t: System)
    requires Busy(s.control) && SchedulerNext(cfg, s, step, t)
    ensures Proceeds(cfg, s, t)
  {
    assert SchedulerPath(cfg, [s, t], [step]);
    assert [s, t][|[step]|] == t;
  }

  lemma ProceedsOn(cfg: Config, s: System, t: System, u: System)
    requires Proceeds(cfg, s, t) && Proceeds(cfg, t, u)
    ensures Proceeds(cfg, s, u)
  {
    var states, steps :| SchedulerPath(cfg, states, steps) && states[0] == s && states[|steps|] == t;
    var later, laterSteps :| SchedulerPath(cfg, later, laterSteps) && later[0] == t && later[|laterSteps|] == u;
    PathsJoin(cfg, states, steps, later, laterSteps);
  }

  lemma PathsJoin(cfg: Config, states: seq<System>, steps: seq<Step>, later: seq<System>, laterSteps: seq<Step>)
    requires SchedulerPath(cfg, states, steps) && SchedulerPath(cfg, later, laterSteps) && states[|steps|] == later[0]
    ensures SchedulerPath(cfg, states[..|steps|] + later, steps + laterSteps)
    ensures (states[..|steps|] + later)[0] == states[0]
    ensures (states[..|steps|] + later)[|steps + laterSteps|] == later[|laterSteps|]
  {
    var all, allSteps := states[..|steps|] + later, steps + laterSteps;
    forall i | 0 <= i < |allSteps|
      ensures Busy(all[i].control) && SchedulerNext(cfg, all[i], allSteps[i], all[i + 1])
    {
      if i < |steps| {
        assert allSteps[i] == steps[i] && all[i] == states[i] && all[i + 1] == states[i + 1];
      } else {
        assert allSteps[i] == laterSteps[i - |steps|];
      }
    }
  }

  /** Inside an evaluation the scheduler has no choice. */
  lemma SchedulerDeterministic(cfg: Config, s: System, step: Step, t: System, other: Step, u: System)
    requires Busy(s.control) && SchedulerNext(cfg, s, step, t) && SchedulerNext(cfg, s, other, u)
    ensures t == u
  {
    match step {
      case EndConsume(candidates) => SameCandidates(s, candidates, other.candidates);
      case _ =>
    }
  }

  lemma SameCandidates(s: System, a: seq<Coord>, b: seq<Coord>)
    requires RowMajor(a) && RowMajor(b)
    requires forall c: Coord :: c in a <==> s.frontier.PhaseOf(c) == Candidate
    requires forall c: Coord :: c in b <==> s.frontier.PhaseOf(c) == Candidate
    ensures a == b
  {
    forall p
      ensures p in a <==> p in b
    {
      if p in a { var i :| 0 <= i < |a| && a[i] == p; assert a[i] in b; }
      if p in b { var i :| 0 <= i < |b| && b[i] == p; assert b[i] in a; }
    }
    RowMajorUnique(a, b);
  }

  /** So with the worker standing still, where an evaluation comes to rest is determined by where it
      began. */
  lemma EvaluationDeterministic(cfg: Config, s: System, t: System, u: System)
    requires Proceeds(cfg, s, t) && Proceeds(cfg, s, u) && !Busy(t.control) && !Busy(u.control)
    ensures t == u
  {
    var states, steps :| SchedulerPath(cfg, states, steps) && states[0] == s && states[|steps|] == t;
    var others, otherSteps :| SchedulerPath(cfg, others, otherSteps) && others[0] == s && others[|otherSteps|] == u;
    PathsAgree(cfg, states, steps, others, otherSteps, if |steps| <= |otherSteps| then |steps| else |otherSteps|);
    if |steps| < |otherSteps| {
      BusyBefore(cfg, others, otherSteps, |steps|);
    } else if |otherSteps| < |steps| {
      BusyBefore(cfg, states, steps, |otherSteps|);
    }
  }

  lemma BusyBefore(cfg: Config, states: seq<System>, steps: seq<Step>, i: nat)
    requires SchedulerPath(cfg, states, steps) && i < |steps|
    ensures Busy(states[i].control)
  {
    assert SchedulerNext(cfg, states[i], steps[i], states[i + 1]);
  }

  lemma {:induction false} PathsAgree(
    cfg: Config, states: seq<System>, steps: seq<Step>, others: seq<System>, otherSteps: seq<Step>, i: nat)
    requires SchedulerPath(cfg, states, steps) && SchedulerPath(cfg, others, otherSteps) && states[0] == others[0]
    requires i <= |steps| && i <= |otherSteps|
    ensures states[i] == others[i]
  {
    if i > 0 {
      PathsAgree(cfg, states, steps, others, otherSteps, i - 1);
      SchedulerDeterministic(cfg, states[i - 1], steps[i - 1], states[i], otherSteps[i - 1], others[i]);
    }
  }

  // ----- With the worker's steps in between -----

  predicate IsWorkerStep(step: Step) {
    || step.Take? || step.Execute? || step.Join? || step.Deliver? || step.ReleaseOutstanding?
    || step.Crash? || step.Detach? || step.Close?
  }

  /** Steps of scheduler, worker and tasks in any order while an evaluation is under way. */
  ghost predicate InterleavedPath(cfg: Config, states: seq<System>, steps: seq<Step>) {
    && |states| == |steps| + 1
    && forall i {:trigger steps[i]} :: 0 <= i < |steps| ==>
         Busy(states[i].control) && Next(cfg, states[i], steps[i], states[i + 1])
  }

  /** Among the first `n` steps the worker makes the same ones at the same places. */
  predicate SameWorkerSteps(steps: seq<Step>, others: seq<Step>, n: nat)
    requires n <= |steps| && n <= |others|
  {
    forall i :: 0 <= i < n && (IsWorkerStep(steps[i]) || IsWorkerStep(others[i])) ==> steps[i] == others[i]
  }

  lemma WorkerDeterministic(cfg: Config, s: System, step: Step, t: System, u: System)
    requires WorkerNext(cfg, s, step, t) && WorkerNext(cfg, s, step, u)
    ensures t == u
  {
  }

  lemma NextIsOneOf(cfg: Config, s: System, step: Step, t: System)
    requires Next(cfg, s, step, t)
    ensures IsWorkerStep(step) ==> WorkerNext(cfg, s, step, t)
    ensures !IsWorkerStep(step) ==> SchedulerNext(cfg, s, step, t)
  {
  }

  lemma NextDeterministic(cfg: Config, s: System, step: Step, t: System, other: Step, u: System)
    requires Busy(s.control) && Next(cfg, s, step, t) && Next(cfg, s, other, u)
    requires IsWorkerStep(step) || IsWorkerStep(other) ==> step == other
    ensures t == u
  {
    NextIsOneOf(cfg, s, step, t);
    NextIsOneOf(cfg, s, other, u);
    if IsWorkerStep(step) {
      WorkerDeterministic(cfg, s, step, t, u);
    } else {
      SchedulerDeterministic(cfg, s, step, t, other, u);
    }
  }

  /** With worker and tasks stepping in between, the state after any number of steps is still a function
      of where the evaluation began, of the worker's steps and of their places among the others. */
  lemma {:induction false} WorkerStepsDecide(
    cfg: Config, states: seq<System>, steps: seq<Step>, others: seq<System>, otherSteps: seq<Step>, n: nat)
    requires InterleavedPath(cfg, states, steps) && InterleavedPath(cfg, others, otherSteps) && states[0] == others[0]
    requires n <= |steps| && n <= |otherSteps| && SameWorkerSteps(steps, otherSteps, n)
    ensures states[n] == others[n]
  {
    if n > 0 {
      WorkerStepsDecide(cfg, states, steps, others, otherSteps, n - 1);
      NextDeterministic(cfg, states[n - 1], steps[n - 1], states[n], otherSteps[n - 1], others[n]);
    }
  }

  // ----- What the invariant gives the handlers -----

  /** The artifact's terrain is kept, its reservation is in flight, and committing it succeeds. */
  ghost predicate Committable(cfg: Config, s: System, artifact: Artifact) {
    && artifact.identity.generatorVersion == cfg.generatorVersion
    && artifact.identity in s.retained && s.retained[artifact.identity] == Content(artifact.digest, artifact.bytes)
    && Finished(s.slots, s.frontier, artifact).Ok?
    && Finished(s.slots, s.frontier, artifact).value.2.revision == s.frontier.revision
  }

  ghost predicate Releasable(cfg: Config, s: System, id: Identity) {
    id.generatorVersion == cfg.generatorVersion && id.coord in s.slots && s.slots[id.coord] == InFlight(id)
  }

  lemma HandlingIsCommittable(cfg: Config, s: System)
    requires Reachable(cfg, s) && s.control.Handling?
    ensures match s.control.event
      case TaskCompleted(artifact) => Committable(cfg, s, artifact)
      case TaskFailed(id) => Releasable(cfg, s, id)
  {
    ReachableIsGood(cfg, s);
    assert Holds(s, s.control.event);
    HeldEventCounts(s, s.control.event);
    match s.control.event
    case TaskCompleted(artifact) => CompletionCommits(cfg, s, artifact);
    case TaskFailed(id) => FailureReleases(cfg, s, id);
  }

  lemma HandledReachable(cfg: Config, s: System, t: System)
    requires Reachable(cfg, s) && s.control.Handling? && t == Handled(cfg, s, s.control.event)
    ensures Reachable(cfg, t) && Proceeds(cfg, s, t) && t.control == Consuming
  {
    StepReachable(cfg, s, Handle, t);
    ProceedsStep(cfg, s, Handle, t);
    ReachableIsGood(cfg, s);
    assert Holds(s, s.control.event);
    HeldEventCounts(s, s.control.event);
    match s.control.event
    case TaskCompleted(artifact) => CompletionCommits(cfg, s, artifact);
    case TaskFailed(id) => FailureReleases(cfg, s, id);
  }

  lemma NextRequestable(cfg: Config, s: System)
    requires Reachable(cfg, s) && s.control.Scheduling? && s.control.loop.rest != []
    ensures Requested(s.slots, s.frontier, cfg.IdentityOf(s.control.loop.rest[0])).Ok?
  {
    ReachableIsGood(cfg, s);
    var c := s.control.loop.rest[0];
    assert c in s.control.loop.rest;
    assert c in s.slots ==> s.slots[c].Owner() == cfg.IdentityOf(c);
  }

  lemma AdvancedView(cfg: Config, s: System, loop: Loop, t: System)
    requires s.control == Scheduling(loop) && loop.rest != [] && loop.admitted < loop.budget
    requires t == s.(slots := t.slots, control := t.control)
    requires var next := loop.(rest := loop.rest[1..]);
             var id := cfg.IdentityOf(loop.rest[0]);
             if !RetryAllows(s, loop.rest[0]) then t.slots == s.slots && t.control == Scheduling(next)
             else && Requested(s.slots, s.frontier, id).Ok?
                  && t.slots == Requested(s.slots, s.frontier, id).value.1
                  && t.control == if Requested(s.slots, s.frontier, id).value.0 == Started
                                  then Reserved(id, next) else Scheduling(next)
    ensures t == Advanced(cfg, s, loop)
  {
  }

  lemma CancelReachable(cfg: Config, s: System, t: System)
    requires Reachable(cfg, s) && s.control.Cancelling?
    requires t == s.(slots := s.slots - {s.control.id.coord},
                     control := if s.control.closed then Bailed(QueueClosed) else Resting)
    ensures Reachable(cfg, t) && Proceeds(cfg, s, t)
  {
    ReachableIsGood(cfg, s);
    CancelOutcome(cfg, s);
    StepReachable(cfg, s, Cancel, t);
    ProceedsStep(cfg, s, Cancel, t);
  }

  lemma CancellingIsReleasable(cfg: Config, s: System)
    requires Reachable(cfg, s) && s.control.Cancelling?
    ensures Releasable(cfg, s, s.control.id)
  {
    ReachableIsGood(cfg, s);
    assert s.slots[s.control.id.coord].Owner() == cfg.IdentityOf(s.control.id.coord);
  }

  lemma MarkReachable(cfg: Config, s: System, t: System)
    requires Reachable(cfg, s) && MarkStep(s, t)
    ensures Reachable(cfg, t) && Proceeds(cfg, s, t)
  {
    StepReachable(cfg, s, MarkOutstanding, t);
    ProceedsStep(cfg, s, MarkOutstanding, t);
  }

  lemma SendReachable(cfg: Config, s: System, t: System)
    requires Reachable(cfg, s) && TrySendStep(cfg, s, t)
    ensures Reachable(cfg, t) && Proceeds(cfg, s, t)
  {
    StepReachable(cfg, s, TrySend, t);
    ProceedsStep(cfg, s, TrySend, t);
  }

  lemma UnmarkReachable(cfg: Config, s: System, t: System)
    requires Reachable(cfg, s) && UnmarkStep(s, t)
    ensures Reachable(cfg, t) && Proceeds(cfg, s, t)
  {
    StepReachable(cfg, s, Unmark, t);
    ProceedsStep(cfg, s, Unmark, t);
  }

  lemma AdvanceReachable(cfg: Config, s: System, t: System)
    requires Reachable(cfg, s) && s.control.Scheduling? && t == Advanced(cfg, s, s.control.loop)
    ensures Reachable(cfg, t) && Proceeds(cfg, s, t)
  {
    StepReachable(cfg, s, Advance, t);
    ProceedsStep(cfg, s, Advance, t);
  }

  lemma ReceiveReachable(cfg: Config, s: System, t: System)
    requires Reachable(cfg, s) && ReceiveStep(s, t)
    ensures Reachable(cfg, t) && Proceeds(cfg, s, t)
  {
    StepReachable(cfg, s, Receive, t);
    ProceedsStep(cfg, s, Receive, t);
  }

  lemma BeginReachable(cfg: Config, s: System, instant: nat, t: System)
    requires Reachable(cfg, s) && BeginStep(s, instant, t)
    ensures Reachable(cfg, t)
  {
    StepReachable(cfg, s, Begin(instant), t);
  }

  lemma EndConsumeReachable(cfg: Config, s: System, candidates: seq<Coord>, t: System)
    requires Reachable(cfg, s) && EndConsumeStep(cfg, s, candidates, t)
    ensures Reachable(cfg, t) && Proceeds(cfg, s, t)
  {
    StepReachable(cfg, s, EndConsume(candidates), t);
    ProceedsStep(cfg, s, EndConsume(candidates), t);
  }

  lemma ReachableHoldsBudget(cfg: Config, s: System)
    requires Reachable(cfg, s)
    ensures Occupied(s) <= cfg.maxPrepared
  {
    ReachableIsGood(cfg, s);
  }

  lemma BailedIsClosed(cfg: Config, s: System)
    requires Reachable(cfg, s) && s.control.Bailed?
    ensures s.worker.ResultsClosed() && s.control.why in {QueueClosed, ResultsDisconnected}
    ensures s.control.why == QueueClosed ==> s.worker.Stopped?
  {
    ReachableIsGood(cfg, s);
  }

  /** The row-major list of the Prepared quadrants has one entry each. */
  lemma PreparedCounted(f: FrontierView, prepared: seq<Coord>)
    requires f.WellFormed() && RowMajor(prepared)
    requires forall c: Coord :: c in prepared <==> f.PhaseOf(c) == Prepared
    ensures |prepared| == |PreparedSet(f)|
  {
    DistinctSize(prepared, PreparedSet(f));
  }

  lemma {:induction false} DistinctSize(list: seq<Coord>, members: set<Coord>)
    requires RowMajor(list) && forall c: Coord :: c in list <==> c in members
    ensures |list| == |members|
    decreases |list|
  {
    if list == [] {
      assert members == {};
    } else {
      var first := list[0];
      assert first in members && first !in list[1..];
      assert forall c: Coord :: c in list <==> c == first || c in list[1..];
      DistinctSize(list[1..], members - {first});
    }
  }

  /** The candidates in row-major order. */
  ghost function SortedCandidates(s: System): (r: seq<Coord>)
    ensures RowMajor(r) && forall c: Coord :: c in r <==> s.frontier.PhaseOf(c) == Candidate
  {
    ListSorted(set c | c in s.frontier.lifecycle && s.frontier.PhaseOf(c) == Candidate)
  }

  ghost function ListSorted(members: set<Coord>): (r: seq<Coord>)
    ensures RowMajor(r) && forall c: Coord :: c in r <==> c in members
    decreases |members|
  {
    if members == {} then []
    else
      var c :| c in members;
      SortedCoords([c] + ListSorted(members - {c}))
  }

  datatype Submission = Submitted | Duplicate | Full | Closed

  /** What one evaluation did, and what it left. */
  datatype Report = Report(completed: nat, failed: nat, submitted: nat, backpressure: nat, prepared: nat, inFlight: nat)

  function Completions(events: seq<Event>): nat {
    if events == [] then 0
    else Completions(events[..|events| - 1]) + (if events[|events| - 1].TaskCompleted? then 1 else 0)
  }

  function RetryIn(retries: map<Coord, Retry>, c: Coord): Option<Retry> {
    if c in retries then Some(retries[c]) else None
  }

  lemma CommittedView(cfg: Config, s: System, artifact: Artifact, t: System)
    requires Committable(cfg, s, artifact)
    requires t == s.(slots := t.slots, frontier := t.frontier,
                     retries := s.retries - {artifact.identity.coord}, control := Consuming)
    requires Acts(s.Runtime(), Finish(artifact), t.Runtime())
    ensures t == Handled(cfg, s, TaskCompleted(artifact))
  {
  }

  lemma ReleasedView(cfg: Config, s: System, given: System, id: Identity, t: System)
    requires Releasable(cfg, s, id)
    requires given == s.(slots := given.slots, retained := s.retained - {id})
    requires Acts(s.Runtime(), Abandon(id), given.Runtime())
    requires t == given.(retries := given.retries[id.coord := AfterFailure(cfg, RetryOf(given, id.coord), given.now)],
                         failures := given.failures[id.coord := given.FailuresOf(id.coord) + 1], control := Consuming)
    ensures t == Handled(cfg, s, TaskFailed(id))
  {
  }

  lemma WorkerReachable(cfg: Config, s: System, step: Step, t: System)
    requires Reachable(cfg, s) && WorkerNext(cfg, s, step, t)
    ensures Reachable(cfg, t)
    ensures t == s.(requests := t.requests, results := t.results, outstanding := t.outstanding, retained := t.retained,
                    tasks := t.tasks, worker := t.worker)
  {
    StepReachable(cfg, s, step, t);
    WorkerTouches(cfg, s, step, t);
  }

  lemma WorkerTouches(cfg: Config, s: System, step: Step, t: System)
    requires WorkerNext(cfg, s, step, t)
    ensures t == s.(requests := t.requests, results := t.results, outstanding := t.outstanding, retained := t.retained,
                    tasks := t.tasks, worker := t.worker)
  {
  }

  lemma RevealReachable(cfg: Config, s: System, c: Coord, transition: TransitionRecord, derived: seq<Coord>, t: System)
    requires Reachable(cfg, s) && RevealStep(s, c, transition, derived, t)
    ensures Reachable(cfg, t)
  {
    StepReachable(cfg, s, RevealQuadrant(c, transition, derived), t);
  }

  lemma OneMoreCompletion(events: seq<Event>, event: Event)
    ensures Completions(events + [event]) == Completions(events) + (if event.TaskCompleted? then 1 else 0)
  {
    assert (events + [event])[..|events|] == events;
  }

  class PreparationScheduler {
    const cfg: Config
    const frontier: FrontierRuntime
    var retries: map<Coord, Retry>
    var retained: map<Identity, Content>
    var requests: seq<Identity>
    var outstanding: set<Identity>
    var results: seq<Event>
    var closed: bool
    var disconnected: bool
    var now: nat
    // the worker, which stands still during one evaluation, and the history of the protocol
    ghost var tasks: seq<Task>
    ghost var worker: Worker
    ghost var failures: map<Coord, nat>
    ghost var control: Control

    ghost function View(): System
      reads this, frontier.state, frontier.preparations
    {
      System(frontier.state.View(), frontier.preparations.slots, retries, requests, tasks, worker, results, outstanding,
             retained, control, now, failures)
    }

    ghost predicate Wired()
      reads this, frontier.state, frontier.preparations
    {
      && frontier.Valid() && frontier.generatorVersion == cfg.generatorVersion
      && (closed <==> worker.Stopped?) && (disconnected <==> worker.ResultsClosed())
    }

    /** The scheduler is in a state of the protocol. */
    ghost predicate Valid()
      reads this, frontier.state, frontier.preparations
    {
      Wired() && Reachable(cfg, View())
    }

    /** A worker freshly spawned over a runtime with nothing in preparation. */
    constructor Spawn(cfg: Config, frontier: FrontierRuntime)
      requires frontier.Valid() && frontier.generatorVersion == cfg.generatorVersion
      requires frontier.preparations.slots == map[]
      ensures Valid() && this.frontier == frontier && this.cfg == cfg && Initial(View())
    {
      this.cfg, this.frontier := cfg, frontier;
      retries, retained, requests, outstanding, results, now := map[], map[], [], {}, [], 0;
      closed, disconnected := false, false;
      tasks, worker, failures, control := [], Selecting, map[], Resting;
      new;
      assert ProtocolRun(cfg, [View()], []);
    }

    // ----- What happens around the scheduler -----

    /** The worker or one of its tasks makes a step of its own, at any moment. */
    method WorkerMoves(ghost step: Step, after: System)
      requires Valid() && WorkerNext(cfg, View(), step, after)
      modifies this`requests, this`results, this`outstanding, this`retained, this`closed, this`disconnected,
               this`tasks, this`worker
      ensures Valid() && View() == after
    {
      WorkerReachable(cfg, View(), step, after);
      TakeOver(after);
    }

    method TakeOver(after: System)
      requires after.frontier == View().frontier && after.slots == View().slots && after.retries == retries
      requires after.control == control && after.now == now && after.failures == failures
      modifies this`requests, this`results, this`outstanding, this`retained, this`closed, this`disconnected,
               this`tasks, this`worker
      ensures View() == after
      ensures (closed <==> worker.Stopped?) && (disconnected <==> worker.ResultsClosed())
    {
      requests, results, outstanding, retained := after.requests, after.results, after.outstanding, after.retained;
      closed, disconnected := after.worker.Stopped?, after.worker.ResultsClosed();
      tasks, worker := after.tasks, after.worker;
    }

    /** Between evaluations a quadrant may be revealed, which keeps the budget and every reservation. */
    method CommitReveal(u: UnlockRequirements, resolve: Resolver) returns (r: Result<RevealOutcome, RuntimeError>)
      requires Valid() && control == Resting
      modifies frontier.state
      ensures Valid()
      ensures r.Ok? && r.value.Opened? ==>
                Acts(old(View()).Runtime(), Reveal(u.coord, r.value.transition, r.value.derived), View().Runtime())
      ensures !(r.Ok? && r.value.Opened?) ==> View() == old(View())
    {
      ghost var before := View();
      r := RevealFrontier(u, resolve);
      if r.Ok? && r.value.Opened? {
        RevealReachable(cfg, before, u.coord, r.value.transition, r.value.derived, View());
      }
    }

    method RevealFrontier(u: UnlockRequirements, resolve: Resolver) returns (r: Result<RevealOutcome, RuntimeError>)
      requires Wired()
      modifies frontier.state
      ensures Wired() && View() == old(View()).(frontier := View().frontier)
      ensures r.Ok? && r.value.Opened? ==>
                Acts(old(View()).Runtime(), Reveal(u.coord, r.value.transition, r.value.derived), View().Runtime())
      ensures !(r.Ok? && r.value.Opened?) ==> View() == old(View())
    {
      r := frontier.CommitReveal(u, resolve);
    }

    // ----- Consuming results -----

    /** Commits one completed artifact. */
    method CommitCompleted(artifact: Artifact) returns (r: Result<(), Bail>)
      requires frontier.Valid() && frontier.generatorVersion == artifact.identity.generatorVersion
      requires artifact.identity in retained && retained[artifact.identity] == Content(artifact.digest, artifact.bytes)
      requires Finished(frontier.View().slots, frontier.View().frontier, artifact).Ok?
      requires Finished(frontier.View().slots, frontier.View().frontier, artifact).value.2.revision
                 == frontier.state.revision
      modifies this`retries, this`control, frontier.state, frontier.preparations
      ensures r.Ok? && frontier.Valid()
      ensures View() == old(View()).(slots := View().slots, frontier := View().frontier,
                                     retries := old(retries) - {artifact.identity.coord}, control := Consuming)
      ensures Acts(old(View()).Runtime(), Finish(artifact), View().Runtime())
    {
      var id := artifact.identity;
      if id !in retained {
        return Err(RetainedMissing);
      }
      if retained[id] != Content(artifact.digest, artifact.bytes) {
        return Err(RetainedMismatch);
      }
      var revisionBefore := frontier.state.revision;
      var completed := frontier.CompletePreparation(artifact);
      if completed.Err? {
        return Err(CompletionRefused);
      }
      retries := retries - {id.coord};
      if frontier.state.revision != revisionBefore {
        return Err(RevisionMoved);
      }
      control := Consuming;
      r := Ok(());
    }

    /** Drops what a failed preparation kept, and its reservation. */
    method GiveBack(id: Identity) returns (r: Result<(), Bail>)
      requires frontier.Valid() && frontier.generatorVersion == id.generatorVersion
      requires id.coord in frontier.View().slots && frontier.View().slots[id.coord] == InFlight(id)
      modifies this`retained, frontier.preparations
      ensures r.Ok? && frontier.Valid()
      ensures View() == old(View()).(slots := View().slots, retained := old(retained) - {id})
      ensures Acts(old(View()).Runtime(), Abandon(id), View().Runtime())
    {
      retained := retained - {id};
      var abandoned := frontier.AbandonPreparation(id);
      if abandoned.Err? {
        return Err(AbandonRefused);
      }
      match abandoned.value {
        case Removed => r := Ok(());
        case NotFound => r := Err(NoReservation);
        case KeptReady => r := Err(ReservationPrepared);
      }
    }

    method CountFailure(c: Coord)
      modifies this`retries
      ensures retries == old(retries)[c := AfterFailure(cfg, RetryIn(old(retries), c), now)]
    {
      var entry := if c in retries then retries[c] else Retry(0, now, false);
      var count: u32 := Min(entry.failures + 1, U32_MAX);
      if count > cfg.maxRetries {
        entry := entry.(failures := count, exhausted := true);
      } else {
        entry := entry.(failures := count, retryAfter := now + cfg.backoff);
      }
      retries := retries[c := entry];
    }

    method HandleCompleted(artifact: Artifact) returns (r: Result<(), Bail>)
      requires Wired() && Committable(cfg, View(), artifact)
      modifies this`retries, this`control, frontier.state, frontier.preparations
      ensures r.Ok? && Wired()
      ensures View() == Handled(cfg, old(View()), TaskCompleted(artifact))
    {
      ghost var before := View();
      r := CommitCompleted(artifact);
      CommittedView(cfg, before, artifact, View());
    }

    method HandleFailed(id: Identity) returns (r: Result<(), Bail>)
      requires Wired() && Releasable(cfg, View(), id)
      modifies this`retries, this`control, this`retained, this`failures, frontier.preparations
      ensures r.Ok? && Wired()
      ensures View() == Handled(cfg, old(View()), TaskFailed(id))
    {
      ghost var before := View();
      r := GiveBack(id);
      ghost var given := View();
      EndFailure(id.coord);
      ReleasedView(cfg, before, given, id, View());
    }

    /** Counts the failure, in the retry entry and for the specification. */
    method EndFailure(c: Coord)
      modifies this`retries, this`failures, this`control
      ensures View() == old(View()).(retries := old(retries)[c := AfterFailure(cfg, RetryOf(old(View()), c), now)],
                                     failures := old(failures)[c := old(View()).FailuresOf(c) + 1],
                                     control := Consuming)
    {
      ghost var before := View();
      CountFailure(c);
      failures := failures[c := before.FailuresOf(c) + 1];
      control := Consuming;
    }

    /** Takes the next event from the queue. */
    method ReceiveOne() returns (event: Event)
      requires Valid() && control == Consuming && results != []
      modifies this`control, this`results
      ensures Valid() && Proceeds(cfg, old(View()), View())
      ensures control == Handling(event) && old(results) == [event] + results
    {
      ghost var before := View();
      event := results[0];
      results := results[1..];
      control := Handling(event);
      ReceiveReachable(cfg, before, View());
    }

    /** Commits the event in hand; that never fails. */
    method HandleOne(event: Event) returns (r: Result<(), Bail>)
      requires Valid() && control == Handling(event)
      modifies this`retries, this`control, this`retained, this`failures, frontier.state, frontier.preparations
      ensures r.Ok? && Valid() && control == Consuming
      ensures View() == Handled(cfg, old(View()), event) && Proceeds(cfg, old(View()), View())
    {
      ghost var before := View();
      HandlingIsCommittable(cfg, before);
      match event {
        case TaskCompleted(artifact) => r := HandleCompleted(artifact);
        case TaskFailed(id) => r := HandleFailed(id);
      }
      HandledReachable(cfg, before, View());
    }

    /** Receives and commits one event. */
    method ConsumeOne() returns (event: Event)
      requires Valid() && control == Consuming && results != []
      modifies this`retries, this`control, this`retained, this`failures, this`results,
               frontier.state, frontier.preparations
      ensures Valid() && control == Consuming && Proceeds(cfg, old(View()), View())
      ensures old(results) == [event] + results
    {
      ghost var before := View();
      event := ReceiveOne();
      ghost var received := View();
      var handled := HandleOne(event);
      ProceedsOn(cfg, before, received, View());
    }

    /** The same inside a loop that began at `before` and has consumed some events. */
    method ConsumeNext(ghost before: System, ghost consumed: seq<Event>) returns (event: Event)
      requires Valid() && control == Consuming && results != []
      requires Proceeds(cfg, before, View()) && before.results == consumed + results
      modifies this`retries, this`control, this`retained, this`failures, this`results,
               frontier.state, frontier.preparations
      ensures Valid() && control == Consuming && Proceeds(cfg, before, View()) && |results| < old(|results|)
      ensures before.results == consumed + [event] + results
    {
      ghost var reached := View();
      event := ConsumeOne();
      ProceedsOn(cfg, before, reached, View());
    }

    /** Consumes every queued result; only a lost worker makes it give up. */
    method ConsumeResults() returns (r: Result<(), Bail>, completed: nat, failed: nat)
      requires Valid() && control == Consuming
      modifies this`retries, this`control, this`retained, this`failures, this`results,
               frontier.state, frontier.preparations
      ensures Valid() && results == [] && control == Consuming && Proceeds(cfg, old(View()), View())
      ensures r == if disconnected then Err(ResultsDisconnected) else Ok(())
      ensures completed == Completions(old(results)) && completed + failed == |old(results)|
    {
      ghost var before := View();
      ghost var consumed: seq<Event> := [];
      completed, failed := 0, 0;
      ProceedsItself(cfg, before);
      while results != []
        invariant Valid() && control == Consuming && Proceeds(cfg, before, View())
        invariant before.results == consumed + results
        invariant completed == Completions(consumed) && completed + failed == |consumed|
        decreases |results|
      {
        var event := ConsumeNext(before, consumed);
        OneMoreCompletion(consumed, event);
        consumed := consumed + [event];
        if event.TaskCompleted? {
          completed := completed + 1;
        } else {
          failed := failed + 1;
        }
      }
      assert consumed + [] == consumed;
      r := if disconnected then Err(ResultsDisconnected) else Ok(());
    }

    // ----- Scheduling candidates -----

    /** Passes over a candidate whose retries do not allow it. */
    method Skip(loop: Loop)
      requires Valid() && control == Scheduling(loop) && loop.rest != [] && loop.admitted < loop.budget
      requires !RetryAllows(View(), loop.rest[0])
      modifies this`control
      ensures Valid() && control == Scheduling(loop.(rest := loop.rest[1..])) && Proceeds(cfg, old(View()), View())
    {
      ghost var before := View();
      control := Scheduling(loop.(rest := loop.rest[1..]));
      AdvancedView(cfg, before, loop, View());
      AdvanceReachable(cfg, before, View());
    }

    method ReserveNext(loop: Loop) returns (id: Option<Identity>)
      requires Valid() && control == Scheduling(loop) && loop.rest != [] && loop.admitted < loop.budget
      requires RetryAllows(View(), loop.rest[0])
      modifies this`control, frontier.preparations
      ensures Valid() && Proceeds(cfg, old(View()), View())
      ensures control == if id.Some? then Reserved(id.value, loop.(rest := loop.rest[1..]))
                         else Scheduling(loop.(rest := loop.rest[1..]))
    {
      ghost var before := View();
      NextRequestable(cfg, before);
      id := Reserve(loop);
      AdvanceReachable(cfg, before, View());
    }

    /** Asks for the next candidate: its identity when a reservation started. */
    method RequestNext(loop: Loop) returns (id: Option<Identity>)
      requires Valid() && control == Scheduling(loop) && loop.rest != [] && loop.admitted < loop.budget
      modifies this`control, frontier.preparations
      ensures Valid() && Proceeds(cfg, old(View()), View())
      ensures control == if id.Some? then Reserved(id.value, loop.(rest := loop.rest[1..]))
                         else Scheduling(loop.(rest := loop.rest[1..]))
    {
      var c := loop.rest[0];
      if c in retries && (retries[c].exhausted || now < retries[c].retryAfter) {
        Skip(loop);
        return None;
      }
      id := ReserveNext(loop);
    }

    /** Requests a candidate the slots accept: its identity unless a slot already held it. */
    method StartPreparation(c: Coord) returns (id: Option<Identity>)
      requires Wired() && Requested(View().slots, View().frontier, cfg.IdentityOf(c)).Ok?
      modifies frontier.preparations
      ensures Wired()
      ensures var requested := Requested(old(View()).slots, old(View()).frontier, cfg.IdentityOf(c)).value;
              && View() == old(View()).(slots := requested.1)
              && id == if requested.0 == Started then Some(cfg.IdentityOf(c)) else None
    {
      var requested := frontier.RequestPreparation(cfg.IdentityOf(c));
      match requested.value {
        case Started => id := Some(cfg.IdentityOf(c));
        case AlreadyInFlight => id := None;
        case AlreadyReady => id := None;
      }
    }

    method Reserve(loop: Loop) returns (id: Option<Identity>)
      requires Wired() && control == Scheduling(loop) && loop.rest != [] && loop.admitted < loop.budget
      requires RetryAllows(View(), loop.rest[0])
      requires Requested(View().slots, View().frontier, cfg.IdentityOf(loop.rest[0])).Ok?
      modifies this`control, frontier.preparations
      ensures Wired() && View() == Advanced(cfg, old(View()), loop)
      ensures control == if id.Some? then Reserved(id.value, loop.(rest := loop.rest[1..]))
                         else Scheduling(loop.(rest := loop.rest[1..]))
    {
      ghost var before := View();
      id := StartPreparation(loop.rest[0]);
      control := if id.Some? then Reserved(id.value, loop.(rest := loop.rest[1..]))
                 else Scheduling(loop.(rest := loop.rest[1..]));
      AdvancedView(cfg, before, loop, View());
    }

    /** Marks an identity outstanding; one that already is makes the submission a duplicate. */
    method MarkSubmission(id: Identity, loop: Loop) returns (duplicate: bool)
      requires Valid() && control == Reserved(id, loop)
      modifies this`outstanding, this`control
      ensures Valid() && Proceeds(cfg, old(View()), View()) && (duplicate <==> id in old(outstanding))
      ensures control == if duplicate then Admitted(loop) else Submitting(id, loop)
    {
      ghost var reserved := View();
      duplicate := id in outstanding;
      if duplicate {
        control := Admitted(loop);
      } else {
        outstanding := outstanding + {id};
        control := Submitting(id, loop);
      }
      MarkReachable(cfg, reserved, View());
    }

    /** Sends a marked identity to the bounded queue. */
    method Send(id: Identity, loop: Loop) returns (sent: bool)
      requires Valid() && control == Submitting(id, loop)
      modifies this`requests, this`control
      ensures Valid() && Proceeds(cfg, old(View()), View())
                && (sent <==> !closed && |old(requests)| < cfg.requestCapacity)
      ensures requests == if sent then old(requests) + [id] else old(requests)
      ensures control == if sent then Admitted(loop) else RollingBack(id, closed)
    {
      ghost var marked := View();
      sent := !closed && |requests| < cfg.requestCapacity;
      if sent {
        requests := requests + [id];
        control := Admitted(loop);
      } else {
        control := RollingBack(id, closed);
      }
      SendReachable(cfg, marked, View());
    }

    /** Submits a reserved identity: marked outstanding first, then sent, and unmarked when the queue
        does not take it. */
    method TrySubmit(id: Identity, loop: Loop) returns (outcome: Submission)
      requires Valid() && control == Reserved(id, loop)
      modifies this`outstanding, this`requests, this`control
      ensures Valid() && Proceeds(cfg, old(View()), View())
      ensures control == if outcome in {Submitted, Duplicate} then Admitted(loop) else Cancelling(id, outcome == Closed)
      ensures outcome == Duplicate <==> id in old(outstanding)
      ensures outcome == Submitted <==> id !in old(outstanding) && !closed && |old(requests)| < cfg.requestCapacity
      ensures requests == if outcome == Submitted then old(requests) + [id] else old(requests)
    {
      ghost var reserved := View();
      var duplicate := MarkSubmission(id, loop);
      if duplicate {
        return Duplicate;
      }
      ghost var marked := View();
      var sent := Send(id, loop);
      ProceedsOn(cfg, reserved, marked, View());
      if sent {
        return Submitted;
      }
      ghost var refused := View();
      Unmark(id);
      ProceedsOn(cfg, reserved, refused, View());
      outcome := if closed then Closed else Full;
    }

    /** Takes an identity that was not sent out of the outstanding set. */
    method Unmark(id: Identity)
      requires Valid() && control == RollingBack(id, closed)
      modifies this`outstanding, this`control
      ensures Valid() && control == Cancelling(id, closed) && Proceeds(cfg, old(View()), View())
    {
      ghost var refused := View();
      outstanding := outstanding - {id};
      control := Cancelling(id, closed);
      UnmarkReachable(cfg, refused, View());
    }

    /** Gives a reservation back that could not be queued; abandoning it never fails. */
    method CancelReservation(id: Identity, wasClosed: bool) returns (r: Result<(), Bail>)
      requires Wired() && Releasable(cfg, View(), id)
      modifies this`control, frontier.preparations
      ensures Wired() && r == if wasClosed then Err(QueueClosed) else Ok(())
      ensures View() == old(View()).(slots := old(View()).slots - {id.coord},
                                     control := if wasClosed then Bailed(QueueClosed) else Resting)
    {
      var abandoned := frontier.AbandonPreparation(id);
      if !wasClosed && abandoned.value != Removed {
        return Err(RollbackFailed);
      }
      control := if wasClosed then Bailed(QueueClosed) else Resting;
      r := if wasClosed then Err(QueueClosed) else Ok(());
    }

    method Rollback(id: Identity, wasClosed: bool) returns (r: Result<(), Bail>)
      requires Valid() && control == Cancelling(id, wasClosed)
      modifies this`control, frontier.preparations
      ensures Valid() && Proceeds(cfg, old(View()), View())
      ensures control == if wasClosed then Bailed(QueueClosed) else Resting
      ensures r == if wasClosed then Err(QueueClosed) else Ok(())
    {
      ghost var before := View();
      CancellingIsReleasable(cfg, before);
      r := CancelReservation(id, wasClosed);
      CancelReachable(cfg, before, View());
    }

    /** The same after a submission that began at `before`. */
    method RollbackNext(ghost before: System, id: Identity, wasClosed: bool) returns (r: Result<(), Bail>)
      requires Valid() && control == Cancelling(id, wasClosed) && Proceeds(cfg, before, View())
      modifies this`control, frontier.preparations
      ensures Valid() && Proceeds(cfg, before, View())
      ensures control == if wasClosed then Bailed(QueueClosed) else Resting
      ensures r == if wasClosed then Err(QueueClosed) else Ok(())
    {
      ghost var refused := View();
      r := Rollback(id, wasClosed);
      ProceedsOn(cfg, before, refused, View());
    }

    method PreparedLen() returns (n: nat)
      requires frontier.Valid()
      ensures n == |PreparedSet(frontier.state.View())|
    {
      var prepared := frontier.state.QuadrantsInState(Prepared);
      PreparedCounted(frontier.state.View(), prepared);
      n := |prepared|;
    }

    /** What the budget leaves for this evaluation. */
    method ComputeBudget() returns (budget: nat)
      requires frontier.Valid()
      ensures budget == AdmissionBudget(cfg, View())
    {
      var prepared := PreparedLen();
      var occupied := prepared + |InFlightSet(frontier.preparations.slots)|;
      budget := if occupied >= cfg.maxPrepared then 0 else Min(cfg.maxPrepared - occupied, cfg.maxSubmissions);
    }

    /** Computes the budget and lists the candidates. */
    method EndConsumption() returns (loop: Loop)
      requires Valid() && control == Consuming && results == [] && !disconnected
      modifies this`control
      ensures Valid() && Proceeds(cfg, old(View()), View())
      ensures loop.admitted == 0 && loop.budget == AdmissionBudget(cfg, old(View()))
      ensures control == if loop.budget == 0 then Resting else Scheduling(loop)
    {
      ghost var before := View();
      var budget := ComputeBudget();
      var candidates := frontier.state.QuadrantsInState(Candidate);
      loop := Loop(candidates, 0, budget);
      control := if budget == 0 then Resting else Scheduling(loop);
      EndConsumeReachable(cfg, before, candidates, View());
    }

    /** Admits candidates in row-major order until the budget, the list or the queue ends. */
    method ScheduleCandidates() returns (r: Result<(), Bail>, submitted: nat, backpressure: nat)
      requires Valid() && control == Consuming && results == [] && !disconnected
      modifies this`outstanding, this`requests, this`control, frontier.preparations
      ensures Valid() && Proceeds(cfg, old(View()), View())
      ensures control == if r.Ok? then Resting else Bailed(r.error)
      ensures submitted <= AdmissionBudget(cfg, old(View())) && backpressure <= 1
      ensures |requests| == |old(requests)| + submitted && old(requests) <= requests
    {
      ghost var before := View();
      var loop := EndConsumption();
      if loop.budget == 0 {
        return Ok(()), 0, 0;
      }
      ghost var listed := View();
      r, submitted, backpressure := AdmitAll(loop);
      ProceedsOn(cfg, before, listed, View());
    }

    /** Tries the next candidate; backpressure or a lost worker stops the loop. */
    method AdmitOne(loop: Loop) returns (stopped: Option<Result<(), Bail>>, next: Loop, sent: bool)
      requires Valid() && control == Scheduling(loop) && loop.rest != [] && loop.admitted < loop.budget
      modifies this`outstanding, this`requests, this`control, frontier.preparations
      ensures Valid() && Proceeds(cfg, old(View()), View())
      ensures next.rest == loop.rest[1..] && next.budget == loop.budget
      ensures loop.admitted + (if sent then 1 else 0) <= next.admitted <= loop.budget
      ensures |requests| == |old(requests)| + (if sent then 1 else 0) && old(requests) <= requests
      ensures match stopped
        case None => control == Scheduling(next)
        case Some(Ok(_)) => control == Resting
        case Some(Err(why)) => control == Bailed(why)
    {
      ghost var before := View();
      var id := RequestNext(loop);
      next := loop.(rest := loop.rest[1..]);
      if id.None? {
        return None, next, false;
      }
      stopped, next, sent := AdmitNext(before, id.value, next);
    }

    /** Submits a candidate whose reservation began at `before`. */
    method AdmitNext(ghost before: System, id: Identity, loop: Loop)
      returns (stopped: Option<Result<(), Bail>>, next: Loop, sent: bool)
      requires Valid() && control == Reserved(id, loop) && Proceeds(cfg, before, View())
      modifies this`outstanding, this`requests, this`control, frontier.preparations
      ensures Valid() && Proceeds(cfg, before, View())
      ensures next.rest == loop.rest && next.budget == loop.budget
      ensures loop.admitted + (if sent then 1 else 0) <= next.admitted <= loop.admitted + 1
      ensures |requests| == |old(requests)| + (if sent then 1 else 0) && old(requests) <= requests
      ensures match stopped
        case None => control == Scheduling(next)
        case Some(Ok(_)) => control == Resting
        case Some(Err(why)) => control == Bailed(why)
    {
      ghost var reserved := View();
      stopped, sent := AdmitReserved(id, loop);
      next := if stopped.None? then loop.(admitted := loop.admitted + 1) else loop;
      ProceedsOn(cfg, before, reserved, View());
    }

    /** Submits a reserved candidate, or gives its reservation back. */
    method AdmitReserved(id: Identity, loop: Loop) returns (stopped: Option<Result<(), Bail>>, sent: bool)
      requires Valid() && control == Reserved(id, loop)
      modifies this`outstanding, this`requests, this`control, frontier.preparations
      ensures Valid() && Proceeds(cfg, old(View()), View())
      ensures sent ==> stopped.None?
      ensures |requests| == |old(requests)| + (if sent then 1 else 0) && old(requests) <= requests
      ensures match stopped
        case None => control == Admitted(loop)
        case Some(Ok(_)) => control == Resting
        case Some(Err(why)) => control == Bailed(why)
    {
      ghost var reserved := View();
      var outcome := TrySubmit(id, loop);
      stopped := AfterSubmission(reserved, id, loop, outcome);
      sent := outcome == Submitted;
    }

    /** Gives the reservation back when the queue did not take it, and then the loop stops. */
    method AfterSubmission(ghost before: System, id: Identity, loop: Loop, outcome: Submission)
      returns (stopped: Option<Result<(), Bail>>)
      requires Valid() && Proceeds(cfg, before, View())
      requires control == if outcome in {Submitted, Duplicate} then Admitted(loop)
                          else Cancelling(id, outcome == Closed)
      modifies this`control, frontier.preparations
      ensures Valid() && Proceeds(cfg, before, View())
      ensures stopped.None? <==> outcome in {Submitted, Duplicate}
      ensures match stopped
        case None => control == Admitted(loop)
        case Some(Ok(_)) => control == Resting
        case Some(Err(why)) => control == Bailed(why)
    {
      if outcome == Full || outcome == Closed {
        var rolled := RollbackNext(before, id, outcome == Closed);
        return Some(rolled);
      }
      stopped := None;
    }

    method AdmitAll(start: Loop) returns (r: Result<(), Bail>, submitted: nat, backpressure: nat)
      requires Valid() && control == Scheduling(start) && start.admitted == 0
      modifies this`outstanding, this`requests, this`control, frontier.preparations
      ensures Valid() && Proceeds(cfg, old(View()), View())
      ensures control == if r.Ok? then Resting else Bailed(r.error)
      ensures submitted <= start.budget && backpressure <= 1
      ensures |requests| == |old(requests)| + submitted && old(requests) <= requests
    {
      ghost var before := View();
      var loop := start;
      submitted, backpressure := 0, 0;
      ProceedsItself(cfg, before);
      while loop.rest != [] && loop.admitted < loop.budget
        invariant Valid() && Proceeds(cfg, before, View())
        invariant control == Scheduling(loop) && loop.budget == start.budget
                    && submitted <= loop.admitted <= loop.budget
        invariant |requests| == |old(requests)| + submitted && old(requests) <= requests
        decreases |loop.rest|
      {
        ghost var reached := View();
        var stopped, next, sent := AdmitOne(loop);
        ProceedsOn(cfg, before, reached, View());
        loop, submitted := next, submitted + (if sent then 1 else 0);
        if stopped.Some? {
          return stopped.value, submitted, if stopped.value.Ok? then 1 else 0;
        }
      }
      ghost var ended := View();
      Rest(loop);
      ProceedsOn(cfg, before, ended, View());
      r := Ok(());
    }

    /** The end of the list, or of the budget. */
    method Rest(loop: Loop)
      requires Valid() && control == Scheduling(loop) && (loop.rest == [] || loop.admitted >= loop.budget)
      modifies this`control
      ensures Valid() && control == Resting && Proceeds(cfg, old(View()), View())
    {
      ghost var before := View();
      control := Resting;
      AdvanceReachable(cfg, before, View());
    }

    /** A report counts the results handled and the identities submitted since, and its occupation is within
        the budget. */
    ghost predicate Reports(report: Report, handled: seq<Event>, before: seq<Identity>)
      reads this, frontier.state, frontier.preparations
    {
      && report.completed == Completions(handled) && report.completed + report.failed == |handled|
      && |requests| == |before| + report.submitted && before <= requests
      && report.submitted <= cfg.maxSubmissions && report.backpressure <= 1
      && report.prepared == |PreparedSet(View().frontier)| && report.inFlight == |InFlightSet(View().slots)|
      && report.prepared + report.inFlight <= cfg.maxPrepared
    }

    /** One evaluation: it begins and ends at rest, goes exactly where the protocol's scheduler goes,
        gives up only for a lost worker, and reports what it did. */
    method Evaluate(instant: nat) returns (r: Result<Report, Bail>)
      requires Valid() && (control == Resting || control.Bailed?) && instant >= now
      modifies this`retries, this`control, this`retained, this`failures, this`results, this`outstanding, this`requests,
               this`now, frontier.state, frontier.preparations
      ensures Valid() && !Busy(control) && (r.Ok? <==> control == Resting)
      ensures Proceeds(cfg, old(View()).(control := Consuming, now := instant), View())
      ensures r.Err? ==> disconnected && r.error in {QueueClosed, ResultsDisconnected}
      ensures r == Err(QueueClosed) ==> closed
      ensures r.Ok? ==> results == [] && Reports(r.value, old(results), old(requests))
    {
      Begin(instant);
      r := ConsumeAndSchedule();
    }

    /** The two halves of an evaluation that has begun. */
    method ConsumeAndSchedule() returns (r: Result<Report, Bail>)
      requires Valid() && control == Consuming
      modifies this`retries, this`control, this`retained, this`failures, this`results, this`outstanding, this`requests,
               frontier.state, frontier.preparations
      ensures Valid() && !Busy(control) && (r.Ok? <==> control == Resting)
      ensures Proceeds(cfg, old(View()), View())
      ensures r.Err? ==> disconnected && r.error in {QueueClosed, ResultsDisconnected}
      ensures r == Err(QueueClosed) ==> closed
      ensures r.Ok? ==> results == [] && Reports(r.value, old(results), old(requests))
    {
      ghost var begun := View();
      var consumed, completed, failed := ConsumeResults();
      if consumed.Err? {
        DisconnectNext(begun);
        return Err(consumed.error);
      }
      r := ScheduleAndReport(begun, begun.results, completed, failed);
    }

    /** Schedules and reports, in an evaluation that began at `before`. */
    method ScheduleAndReport(ghost before: System, ghost received: seq<Event>, completed: nat, failed: nat)
      returns (r: Result<Report, Bail>)
      requires Valid() && control == Consuming && results == [] && !disconnected && Proceeds(cfg, before, View())
      requires completed == Completions(received) && completed + failed == |received|
      modifies this`outstanding, this`requests, this`control, frontier.preparations
      ensures Valid() && Proceeds(cfg, before, View())
      ensures !Busy(control) && (r.Ok? <==> control == Resting)
      ensures r.Err? ==> disconnected && r.error in {QueueClosed, ResultsDisconnected}
      ensures r == Err(QueueClosed) ==> closed
      ensures r.Ok? ==> Reports(r.value, received, old(requests))
    {
      ghost var drained := View();
      var scheduled, submitted, backpressure := ScheduleCandidates();
      ProceedsOn(cfg, before, drained, View());
      if scheduled.Err? {
        BailedIsClosed(cfg, View());
        return Err(scheduled.error);
      }
      var prepared := PreparedLen();
      ReachableHoldsBudget(cfg, View());
      r := Ok(Report(completed, failed, submitted, backpressure, prepared, |InFlightSet(frontier.preparations.slots)|));
    }

    method Begin(instant: nat)
      requires Valid() && (control == Resting || control.Bailed?) && instant >= now
      modifies this`control, this`now
      ensures Valid() && View() == old(View()).(control := Consuming, now := instant)
    {
      ghost var before := View();
      now := instant;
      control := Consuming;
      BeginReachable(cfg, before, instant, View());
    }

    method Disconnect()
      requires Valid() && control == Consuming && results == [] && disconnected
      modifies this`control
      ensures Valid() && control == Bailed(ResultsDisconnected) && Proceeds(cfg, old(View()), View())
    {
      ghost var before := View();
      ghost var candidates := SortedCandidates(before);
      control := Bailed(ResultsDisconnected);
      EndConsumeReachable(cfg, before, candidates, View());
    }

    /** The same in an evaluation that began at `before`. */
    method DisconnectNext(ghost before: System)
      requires Valid() && control == Consuming && results == [] && disconnected && Proceeds(cfg, before, View())
      modifies this`control
      ensures Valid() && control == Bailed(ResultsDisconnected) && Proceeds(cfg, before, View())
    {
      ghost var drained := View();
      Disconnect();
      ProceedsOn(cfg, before, drained, View());
    }
  }
}
