/** The preparation protocol: the retrying scheduler, the bounded queues and the worker tasks, as
    a step relation over every interleaving (apps/world-server/src/preparation_scheduler.rs,
    crates/preparation/src/lib.rs). */
module PreparationProtocol {
  import opened MachineInts
  import opened Lattice
  import opened Frontier
  import opened QuadrantPreparation
  import opened FrontierRuntimes

  /** Settings, and the deterministic seed that makes one identity per quadrant. */
  datatype Config = Config(
    requestCapacity: nat,
    resultCapacity: nat,
    maxInFlight: nat,
    maxSubmissions: nat,
    maxPrepared: nat,
    backoff: nat,
    maxRetries: u32,
    generatorVersion: u32,
    seed: Coord -> Fingerprint)
  {
    function IdentityOf(c: Coord): Identity { Identity(c, generatorVersion, seed(c)) }
  }

  /** What the executor keeps of a generated terrain. */
  datatype Content = Content(digest: Fingerprint, bytes: u64)

  datatype Event = TaskCompleted(artifact: Artifact) | TaskFailed(failed: Identity) {
    function Owner(): Identity { if TaskCompleted? then artifact.identity else failed }
  }

  datatype Task = Running(id: Identity) | Done(event: Event) {
    function Owner(): Identity { if Running? then id else event.Owner() }
  }

  /** A worker that gives up clears the outstanding set first, then drops its end of the results, and its
      end of the requests last. */
  datatype Worker =
    | Selecting
    | Delivering(event: Event)
    | Releasing(id: Identity)
    | Stopping
    | Detached
    | Stopped
  {
    predicate Working() { !Stopping? && !ResultsClosed() }

    predicate ResultsClosed() { Detached? || Stopped? }
  }

  datatype Retry = Retry(failures: u32, retryAfter: nat, exhausted: bool)

  datatype Loop = Loop(rest: seq<Coord>, admitted: nat, budget: nat)

  datatype Bail =
    | RetainedMissing | RetainedMismatch | CompletionRefused | RevisionMoved
    | AbandonRefused | NoReservation | ReservationPrepared
    | RequestRefused | CancelRefused | RollbackFailed
    | QueueClosed | ResultsDisconnected

  /** Where the scheduler is inside one evaluation. */
  datatype Control =
    | Resting
    | Consuming
    | Handling(event: Event)
    | Scheduling(loop: Loop)
    | Reserved(id: Identity, loop: Loop)
    | Submitting(id: Identity, loop: Loop)
    | RollingBack(id: Identity, closed: bool)
    | Cancelling(id: Identity, closed: bool)
    | Bailed(why: Bail)

  datatype System = System(
    frontier: FrontierView,
    slots: Slots,
    retries: map<Coord, Retry>,
    requests: seq<Identity>,
    tasks: seq<Task>,
    worker: Worker,
    results: seq<Event>,
    outstanding: set<Identity>,
    retained: map<Identity, Content>,
    control: Control,
    now: nat,
    failures: map<Coord, nat>) // history: failures handled so far
  {
    function Runtime(): RuntimeView { RuntimeView(frontier, slots) }

    function FailuresOf(c: Coord): nat { if c in failures then failures[c] else 0 }

    function Bailing(why: Bail): System { this.(control := Bailed(why)) }
  }

  // ----- The scheduler's steps -----

  /** The retry entry after one more failure; the counter saturates. */
  function AfterFailure(cfg: Config, before: Option<Retry>, now: nat): Retry {
    var entry := if before.Some? then before.value else Retry(0, now, false);
    var failures: u32 := Min(entry.failures + 1, U32_MAX);
    if failures > cfg.maxRetries then Retry(failures, entry.retryAfter, true)
    else Retry(failures, now + cfg.backoff, entry.exhausted)
  }

  function RetryOf(s: System, c: Coord): Option<Retry> {
    if c in s.retries then Some(s.retries[c]) else None
  }

  function RetryAllows(s: System, c: Coord): bool {
    c in s.retries ==> !s.retries[c].exhausted && s.now >= s.retries[c].retryAfter
  }

  /** The part of the state that committing an event may change. */
  datatype Books = Books(frontier: FrontierView, slots: Slots, retries: map<Coord, Retry>,
                         retained: map<Identity, Content>, failures: map<Coord, nat>, control: Control)
  {
    function Bailing(why: Bail): Books { this.(control := Bailed(why)) }
  }

  /** The books after committing one received event. */
  function Booked(cfg: Config, s: System, event: Event): Books {
    var books := Books(s.frontier, s.slots, s.retries, s.retained, s.failures, Consuming);
    match event
    case TaskCompleted(artifact) =>
      var id := artifact.identity;
      if id !in s.retained then books.Bailing(RetainedMissing)
      else if s.retained[id] != Content(artifact.digest, artifact.bytes) then books.Bailing(RetainedMismatch)
      else if id.generatorVersion != cfg.generatorVersion then books.Bailing(CompletionRefused)
      else
        (match Finished(s.slots, s.frontier, artifact)
         case Err(_) => books.Bailing(CompletionRefused)
         case Ok((_, slots, f)) =>
           var after := books.(slots := slots, frontier := f, retries := s.retries - {id.coord});
           if f.revision != s.frontier.revision then after.Bailing(RevisionMoved) else after)
    case TaskFailed(id) =>
      var dropped := books.(retained := s.retained - {id});
      if id.generatorVersion != cfg.generatorVersion then dropped.Bailing(AbandonRefused)
      else
        (match Abandoned(s.slots, id)
         case Err(_) => dropped.Bailing(AbandonRefused)
         case Ok((NotFound, _)) => dropped.Bailing(NoReservation)
         case Ok((KeptReady, _)) => dropped.Bailing(ReservationPrepared)
         case Ok((Removed, slots)) =>
           dropped.(slots := slots,
                    retries := s.retries[id.coord := AfterFailure(cfg, RetryOf(s, id.coord), s.now)],
                    failures := s.failures[id.coord := s.FailuresOf(id.coord) + 1]))
  }

  /** Committing one received event to the frontier. */
  function Handled(cfg: Config, s: System, event: Event): System {
    var books := Booked(cfg, s, event);
    s.(frontier := books.frontier, slots := books.slots, retries := books.retries, retained := books.retained,
       failures := books.failures, control := books.control)
  }

  function PreparedSet(f: FrontierView): set<Coord> {
    set c | c in f.lifecycle && f.lifecycle[c] == Prepared
  }

  function InFlightSet(slots: Slots): set<Coord> {
    set c | c in slots && slots[c].InFlight?
  }

  function Occupied(s: System): nat {
    |PreparedSet(s.frontier)| + |InFlightSet(s.slots)|
  }

  /** The submissions one evaluation may still make. */
  function AdmissionBudget(cfg: Config, s: System): nat {
    if Occupied(s) >= cfg.maxPrepared then 0 else Min(cfg.maxPrepared - Occupied(s), cfg.maxSubmissions)
  }

  /** The slots after looking at the next candidate, and where the scheduler then is. */
  function Considered(cfg: Config, s: System, loop: Loop): (Slots, Control) {
    if loop.rest == [] || loop.admitted >= loop.budget then (s.slots, Resting)
    else
      var c := loop.rest[0];
      var next := loop.(rest := loop.rest[1..]);
      if !RetryAllows(s, c) then (s.slots, Scheduling(next))
      else
        match Requested(s.slots, s.frontier, cfg.IdentityOf(c))
        case Err(_) => (s.slots, Bailed(RequestRefused))
        case Ok((Started, slots)) => (slots, Reserved(cfg.IdentityOf(c), next))
        case Ok(_) => (s.slots, Scheduling(next))
  }

  /** Looking at the next candidate. */
  function Advanced(cfg: Config, s: System, loop: Loop): System {
    s.(slots := Considered(cfg, s, loop).0, control := Considered(cfg, s, loop).1)
  }

  function Admitted(loop: Loop): Control {
    Scheduling(loop.(admitted := loop.admitted + 1))
  }

  /** The slots after undoing a reservation, and where the scheduler then is. */
  function Undone(s: System, id: Identity, closed: bool): (Slots, Control) {
    match Abandoned(s.slots, id)
    case Err(_) => (s.slots, Bailed(CancelRefused))
    case Ok((outcome, slots)) =>
      (slots, if closed then Bailed(QueueClosed) else if outcome == Removed then Resting else Bailed(RollbackFailed))
  }

  function Cancelled(s: System, id: Identity, closed: bool): System {
    s.(slots := Undone(s, id, closed).0, control := Undone(s, id, closed).1)
  }

  datatype Step =
    | Begin(instant: nat)
    | Receive
    | Handle
    | EndConsume(candidates: seq<Coord>)
    | Advance
    | MarkOutstanding
    | TrySend
    | Unmark
    | Cancel
    | RevealQuadrant(coord: Coord, transition: TransitionRecord, derived: seq<Coord>)
    | Take
    | Execute(task: nat, produced: Option<Content>)
    | Join(task: nat)
    | Deliver
    | ReleaseOutstanding
    | Crash
    | Detach
    | Close

  ghost predicate BeginStep(s: System, instant: nat, t: System) {
    && (s.control.Resting? || s.control.Bailed?) && instant >= s.now
    && t == s.(control := Consuming, now := instant)
  }

  ghost predicate ReceiveStep(s: System, t: System) {
    && s.control.Consuming? && s.results != []
    && t == s.(results := s.results[1..], control := Handling(s.results[0]))
  }

  ghost predicate EndConsumeStep(cfg: Config, s: System, candidates: seq<Coord>, t: System) {
    && s.control.Consuming? && s.results == []
    && RowMajor(candidates) && (forall c: Coord :: c in candidates <==> s.frontier.PhaseOf(c) == Candidate)
    && t == (if s.worker.ResultsClosed() then s.Bailing(ResultsDisconnected)
             else if AdmissionBudget(cfg, s) == 0 then s.(control := Resting)
             else s.(control := Scheduling(Loop(candidates, 0, AdmissionBudget(cfg, s)))))
  }

  /** An identity still outstanding makes the submission a duplicate: the reservation stays. */
  ghost predicate MarkStep(s: System, t: System) {
    && s.control.Reserved?
    && t == if s.control.id in s.outstanding then s.(control := Admitted(s.control.loop))
            else s.(outstanding := s.outstanding + {s.control.id}, control := Submitting(s.control.id, s.control.loop))
  }

  ghost predicate TrySendStep(cfg: Config, s: System, t: System) {
    && s.control.Submitting?
    && t == if s.worker.Stopped? then s.(control := RollingBack(s.control.id, true))
            else if |s.requests| >= cfg.requestCapacity then s.(control := RollingBack(s.control.id, false))
            else s.(requests := s.requests + [s.control.id], control := Admitted(s.control.loop))
  }

  ghost predicate UnmarkStep(s: System, t: System) {
    && s.control.RollingBack?
    && t == s.(outstanding := s.outstanding - {s.control.id}, control := Cancelling(s.control.id, s.control.closed))
  }

  ghost predicate RevealStep(s: System, c: Coord, transition: TransitionRecord, derived: seq<Coord>, t: System) {
    && s.control.Resting? && t == s.(frontier := t.frontier)
    && Acts(s.Runtime(), Reveal(c, transition, derived), t.Runtime())
  }

  ghost predicate TakeStep(cfg: Config, s: System, t: System) {
    && s.worker.Selecting? && s.requests != [] && |s.tasks| < cfg.maxInFlight
    && t == s.(requests := s.requests[1..], tasks := s.tasks + [Running(s.requests[0])])
  }

  /** A task ends on its own thread, also after the worker stopped; it keeps its terrain before it
      reports the artifact. */
  ghost predicate ExecuteStep(s: System, i: nat, produced: Option<Content>, t: System) {
    && i < |s.tasks| && s.tasks[i].Running?
    && t == if produced.None? then s.(tasks := s.tasks[i := Done(TaskFailed(s.tasks[i].id))])
            else s.(retained := s.retained[s.tasks[i].id := produced.value],
                    tasks := s.tasks[i := Done(TaskCompleted(
                      Artifact(s.tasks[i].id, produced.value.digest, produced.value.bytes)))])
  }

  ghost predicate JoinStep(s: System, i: nat, t: System) {
    && s.worker.Selecting? && i < |s.tasks| && s.tasks[i].Done?
    && t == s.(tasks := s.tasks[..i] + s.tasks[i + 1..], worker := Delivering(s.tasks[i].event))
  }

  ghost predicate DeliverStep(cfg: Config, s: System, t: System) {
    && s.worker.Delivering? && |s.results| < cfg.resultCapacity
    && t == s.(results := s.results + [s.worker.event], worker := Releasing(s.worker.event.Owner()))
  }

  ghost predicate ReleaseStep(s: System, t: System) {
    s.worker.Releasing? && t == s.(outstanding := s.outstanding - {s.worker.id}, worker := Selecting)
  }

  ghost predicate CrashStep(s: System, t: System) {
    s.worker.Selecting? && s.tasks != [] && t == s.(worker := Stopping, outstanding := {})
  }

  /** No more results will come; those already sent can still be received. */
  ghost predicate DetachStep(s: System, t: System) {
    s.worker.Stopping? && t == s.(worker := Detached)
  }

  /** What was queued after the set was cleared is dropped with the channel. */
  ghost predicate CloseStep(s: System, t: System) {
    s.worker.Detached? && t == s.(worker := Stopped, requests := [])
  }

  /** One of the steps by which a worker ends. */
  ghost predicate EndingStep(s: System, t: System) { CrashStep(s, t) || DetachStep(s, t) || CloseStep(s, t) }

  ghost predicate SchedulerNext(cfg: Config, s: System, step: Step, t: System) {
    match step
    case Begin(instant) => BeginStep(s, instant, t)
    case Receive => ReceiveStep(s, t)
    case Handle => s.control.Handling? && t == Handled(cfg, s, s.control.event)
    case EndConsume(candidates) => EndConsumeStep(cfg, s, candidates, t)
    case Advance => s.control.Scheduling? && t == Advanced(cfg, s, s.control.loop)
    case MarkOutstanding => MarkStep(s, t)
    case TrySend => TrySendStep(cfg, s, t)
    case Unmark => UnmarkStep(s, t)
    case Cancel => s.control.Cancelling? && t == Cancelled(s, s.control.id, s.control.closed)
    case RevealQuadrant(c, transition, derived) => RevealStep(s, c, transition, derived, t)
    case _ => false
  }

  ghost predicate WorkerNext(cfg: Config, s: System, step: Step, t: System) {
    match step
    case Take => TakeStep(cfg, s, t)
    case Execute(i, produced) => ExecuteStep(s, i, produced, t)
    case Join(i) => JoinStep(s, i, t)
    case Deliver => DeliverStep(cfg, s, t)
    case ReleaseOutstanding => ReleaseStep(s, t)
    case Crash => CrashStep(s, t)
    case Detach => DetachStep(s, t)
    case Close => CloseStep(s, t)
    case _ => false
  }

  ghost predicate Next(cfg: Config, s: System, step: Step, t: System) {
    SchedulerNext(cfg, s, step, t) || WorkerNext(cfg, s, step, t)
  }

  // ----- The pipeline -----

  function TaskOwners(tasks: seq<Task>): seq<Identity> {
    seq(|tasks|, i requires 0 <= i < |tasks| => tasks[i].Owner())
  }

  function EventOwners(events: seq<Event>): seq<Identity> {
    seq(|events|, i requires 0 <= i < |events| => events[i].Owner())
  }

  function Occurrences(ids: seq<Identity>, id: Identity): nat {
    multiset(ids)[id]
  }

  /** How often the worker answers for an identity. */
  function WorkerCount(s: System, id: Identity): nat {
    Occurrences(s.requests, id) + Occurrences(TaskOwners(s.tasks), id)
    + (if s.worker.Delivering? && s.worker.event.Owner() == id then 1 else 0)
  }

  /** How often an identity occurs between submission and commitment. */
  function PipelineCount(s: System, id: Identity): nat {
    WorkerCount(s, id) + Occurrences(EventOwners(s.results), id)
    + (if s.control.Handling? && s.control.event.Owner() == id then 1 else 0)
  }

  /** The reservation the scheduler is still submitting or undoing. */
  function Pending(control: Control): Option<Identity> {
    match control
    case Reserved(id, _) => Some(id)
    case Submitting(id, _) => Some(id)
    case RollingBack(id, _) => Some(id)
    case Cancelling(id, _) => Some(id)
    case _ => None
  }

  ghost predicate Holds(s: System, event: Event) {
    || (exists i :: 0 <= i < |s.tasks| && s.tasks[i] == Done(event))
    || s.worker == Delivering(event)
    || event in s.results
    || s.control == Handling(event)
  }

  // ----- What every reachable state keeps -----

  ghost predicate ReservationsMatch(cfg: Config, s: System) {
    && (forall c :: c in s.slots ==> s.slots[c].Owner() == cfg.IdentityOf(c))
    && (forall id :: PipelineCount(s, id) > 0 ==>
          PipelineCount(s, id) == 1 && id.coord in s.slots && s.slots[id.coord] == InFlight(id))
    && (var pending := Pending(s.control);
        pending.Some? ==> && PipelineCount(s, pending.value) == 0 && pending.value.coord in s.slots
                          && s.slots[pending.value.coord] == InFlight(pending.value))
  }

  ghost predicate ArtifactsRetained(s: System) {
    forall event :: Holds(s, event) && event.TaskCompleted? ==>
      event.Owner() in s.retained && s.retained[event.Owner()] == Content(event.artifact.digest, event.artifact.bytes)
  }

  function LoopOf(control: Control): Option<Loop> {
    match control
    case Scheduling(loop) => Some(loop)
    case Reserved(_, loop) => Some(loop)
    case Submitting(_, loop) => Some(loop)
    case _ => None
  }

  ghost predicate WithinBudget(cfg: Config, s: System) {
    && Occupied(s) <= cfg.maxPrepared
    && (LoopOf(s.control).Some? ==>
          var loop := LoopOf(s.control).value;
          && (forall c: Coord :: c in loop.rest ==> s.frontier.PhaseOf(c) == Candidate)
          && loop.admitted <= loop.budget <= cfg.maxPrepared
          && (!s.control.Scheduling? ==> loop.admitted < loop.budget)
          && Occupied(s) <= cfg.maxPrepared - loop.budget + loop.admitted + (if s.control.Scheduling? then 0 else 1))
  }

  predicate Marked(control: Control) { control.Submitting? || control.RollingBack? }

  /** The outstanding set is the worker's own work, plus a submission or a release under way. */
  ghost predicate OutstandingExact(s: System) {
    s.worker.Working() ==>
      && (forall id :: id in s.outstanding <==>
            || WorkerCount(s, id) > 0 || s.worker == Releasing(id)
            || (Marked(s.control) && s.control.id == id))
      && (Marked(s.control) ==> s.worker != Releasing(s.control.id))
      && (s.worker.Releasing? ==> WorkerCount(s, s.worker.id) == 0)
  }

  ghost predicate RetriesCount(cfg: Config, s: System) {
    forall c: Coord ::
      && s.FailuresOf(c) <= cfg.maxRetries + 1
      && (c in s.retries ==> && s.retries[c].failures == s.FailuresOf(c)
                             && (s.retries[c].exhausted <==> s.FailuresOf(c) > cfg.maxRetries))
      && (c !in s.retries ==> s.FailuresOf(c) == 0 || (c in s.slots && s.slots[c].Ready?))
      && (c in s.slots ==> s.FailuresOf(c) <= cfg.maxRetries)
  }

  ghost predicate BailsOnlyWhenLost(s: System) {
    && (s.control.Bailed? ==>
          || (s.control.why == QueueClosed && s.worker == Stopped)
          || (s.control.why == ResultsDisconnected && s.worker.ResultsClosed()))
    && ((s.control.RollingBack? || s.control.Cancelling?) && s.control.closed ==> s.worker == Stopped)
  }

  ghost predicate Core(cfg: Config, s: System) {
    ReservationsMatch(cfg, s) && ArtifactsRetained(s)
  }

  ghost predicate Accounts(cfg: Config, s: System) {
    WithinBudget(cfg, s) && OutstandingExact(s) && BailsOnlyWhenLost(s)
  }

  ghost predicate Safe(cfg: Config, s: System) {
    Invariant(s.Runtime()) && Core(cfg, s) && Accounts(cfg, s)
  }

  // ----- How steps move identities through the pipeline -----

  lemma OneMore(ids: seq<Identity>, added: Identity, id: Identity)
    ensures Occurrences(ids + [added], id) == Occurrences(ids, id) + (if id == added then 1 else 0)
  {
  }

  lemma OneTaken(ids: seq<Identity>, id: Identity)
    requires ids != []
    ensures Occurrences(ids, id) == Occurrences(ids[1..], id) + (if id == ids[0] then 1 else 0)
  {
    assert ids == [ids[0]] + ids[1..];
  }

  lemma OneRemoved(ids: seq<Identity>, i: nat, id: Identity)
    requires i < |ids|
    ensures Occurrences(ids, id) == Occurrences(ids[..i] + ids[i + 1..], id) + (if id == ids[i] then 1 else 0)
  {
    assert ids == ids[..i] + [ids[i]] + ids[i + 1..];
  }

  /** No queue, task or event moves. */
  ghost predicate SamePipes(s: System, t: System) {
    t.requests == s.requests && t.tasks == s.tasks && t.worker == s.worker && t.results == s.results
  }

  lemma HandledFrame(cfg: Config, s: System, event: Event)
    ensures var t := Handled(cfg, s, event);
            && SamePipes(s, t) && t.outstanding == s.outstanding && t.now == s.now
            && (t.control == Consuming || t.control.Bailed?)
  {
  }

  lemma AdvancedFrame(cfg: Config, s: System, loop: Loop)
    ensures var t := Advanced(cfg, s, loop);
            && SamePipes(s, t) && t.outstanding == s.outstanding && t.retained == s.retained
            && t.frontier == s.frontier && t.retries == s.retries && t.failures == s.failures
            && (t.control == Resting || t.control == Bailed(RequestRefused)
                || t.control.Scheduling? || t.control.Reserved?)
  {
    AdvancedControl(cfg, s, loop);
  }

  /** An advance moves slots and control only, and slots only for a reservation. */
  lemma AdvancedControl(cfg: Config, s: System, loop: Loop)
    ensures var t := Advanced(cfg, s, loop);
            && t == s.(slots := t.slots, control := t.control)
            && (t.slots == s.slots || t.control.Reserved?)
            && (t.control == Resting || t.control == Bailed(RequestRefused)
                || t.control.Scheduling? || t.control.Reserved?)
  {
  }

  lemma AdvancedRequests(cfg: Config, s: System, loop: Loop)
    requires Advanced(cfg, s, loop).slots != s.slots
    ensures var t := Advanced(cfg, s, loop);
            && t.frontier == s.frontier && t.control.Reserved?
            && Requested(s.slots, s.frontier, t.control.id).Ok?
            && t.slots == Requested(s.slots, s.frontier, t.control.id).value.1
  {
  }

  lemma CancelledFrame(s: System, id: Identity, closed: bool)
    ensures var t := Cancelled(s, id, closed);
            && SamePipes(s, t) && t.outstanding == s.outstanding && t.retained == s.retained
            && t.frontier == s.frontier && t.retries == s.retries && t.failures == s.failures
            && (t.control == Resting || t.control.Bailed?)
  {
  }

  lemma QuietMoves(s: System, t: System, id: Identity)
    requires SamePipes(s, t) && !s.control.Handling? && !t.control.Handling?
    ensures WorkerCount(t, id) == WorkerCount(s, id) && PipelineCount(t, id) == PipelineCount(s, id)
  {
  }

  /** The identity a submission adds to the queue, if any. */
  function Queued(s: System, t: System): Option<Identity> {
    if s.control.Submitting? && t.requests != s.requests then Some(s.control.id) else None
  }

  lemma TrySendMoves(cfg: Config, s: System, t: System, id: Identity)
    requires TrySendStep(cfg, s, t)
    ensures var added := if Queued(s, t) == Some(id) then 1 else 0;
            WorkerCount(t, id) == WorkerCount(s, id) + added && PipelineCount(t, id) == PipelineCount(s, id) + added
  {
    OneMore(s.requests, s.control.id, id);
    assert |s.requests + [s.control.id]| != |s.requests|;
  }

  lemma ReceiveMoves(s: System, t: System, id: Identity)
    requires ReceiveStep(s, t)
    ensures WorkerCount(t, id) == WorkerCount(s, id) && PipelineCount(t, id) == PipelineCount(s, id)
  {
    OneTaken(EventOwners(s.results), id);
    assert EventOwners(s.results)[1..] == EventOwners(t.results);
  }

  lemma TakeMoves(cfg: Config, s: System, t: System, id: Identity)
    requires TakeStep(cfg, s, t)
    ensures WorkerCount(t, id) == WorkerCount(s, id) && PipelineCount(t, id) == PipelineCount(s, id)
  {
    OneTaken(s.requests, id);
    OneMore(TaskOwners(s.tasks), s.requests[0], id);
    assert TaskOwners(t.tasks) == TaskOwners(s.tasks) + [s.requests[0]];
  }

  lemma ExecuteMoves(s: System, i: nat, produced: Option<Content>, t: System, id: Identity)
    requires ExecuteStep(s, i, produced, t)
    ensures WorkerCount(t, id) == WorkerCount(s, id) && PipelineCount(t, id) == PipelineCount(s, id)
  {
    assert TaskOwners(t.tasks) == TaskOwners(s.tasks);
  }

  lemma JoinMoves(s: System, i: nat, t: System, id: Identity)
    requires JoinStep(s, i, t)
    ensures WorkerCount(t, id) == WorkerCount(s, id) && PipelineCount(t, id) == PipelineCount(s, id)
  {
    var owners := TaskOwners(s.tasks);
    OneRemoved(owners, i, id);
    assert TaskOwners(t.tasks) == owners[..i] + owners[i + 1..];
  }

  lemma DeliverMoves(cfg: Config, s: System, t: System, id: Identity)
    requires DeliverStep(cfg, s, t)
    ensures WorkerCount(s, id) == WorkerCount(t, id) + (if s.worker.event.Owner() == id then 1 else 0)
    ensures PipelineCount(t, id) == PipelineCount(s, id)
  {
    OneMore(EventOwners(s.results), s.worker.event.Owner(), id);
    assert EventOwners(t.results) == EventOwners(s.results) + [s.worker.event.Owner()];
  }

  lemma EndingMoves(s: System, t: System, id: Identity)
    requires EndingStep(s, t)
    ensures PipelineCount(t, id) <= PipelineCount(s, id)
  {
    assert t.requests == s.requests || Occurrences(t.requests, id) == 0;
    assert t.tasks == s.tasks && t.results == s.results && t.control == s.control;
  }

  lemma HandleMoves(cfg: Config, s: System, t: System, id: Identity)
    requires s.control.Handling? && t == Handled(cfg, s, s.control.event)
    ensures WorkerCount(t, id) == WorkerCount(s, id)
    ensures PipelineCount(s, id) == PipelineCount(t, id) + (if s.control.event.Owner() == id then 1 else 0)
  {
    HandledFrame(cfg, s, s.control.event);
  }

  // ----- Handling an event never fails -----

  lemma HeldEventCounts(s: System, event: Event)
    requires Holds(s, event)
    ensures PipelineCount(s, event.Owner()) > 0
  {
    if i :| 0 <= i < |s.tasks| && s.tasks[i] == Done(event) {
      assert TaskOwners(s.tasks)[i] == event.Owner();
    } else if i :| 0 <= i < |s.results| && s.results[i] == event {
      assert EventOwners(s.results)[i] == event.Owner();
    }
  }

  /** A completed artifact finds its own terrain and its own reservation, so it is committed: the
      quadrant becomes Prepared, the revision does not move and the retry entry is dropped. */
  lemma CompletionCommits(cfg: Config, s: System, artifact: Artifact)
    requires Invariant(s.Runtime()) && Core(cfg, s) && s.control == Handling(TaskCompleted(artifact))
    ensures var c := artifact.identity.coord;
            && s.frontier.PhaseOf(c) == Candidate
            && Handled(cfg, s, s.control.event)
               == s.(slots := s.slots[c := Ready(artifact)],
                     frontier := s.frontier.(lifecycle := s.frontier.lifecycle[c := Prepared]),
                     retries := s.retries - {c}, control := Consuming)
            && Acts(s.Runtime(), Finish(artifact), Handled(cfg, s, s.control.event).Runtime())
  {
    assert Holds(s, s.control.event);
    HeldEventCounts(s, s.control.event);
    FinishesReserved(s.slots, s.frontier, artifact);
  }

  /** An artifact whose reservation is in flight makes its Candidate Prepared. */
  lemma FinishesReserved(slots: Slots, f: FrontierView, artifact: Artifact)
    requires f.WellFormed() && Agrees(slots, f)
    requires var id := artifact.identity; id.coord in slots && slots[id.coord] == InFlight(id)
    ensures var c := artifact.identity.coord;
            && f.PhaseOf(c) == Candidate && Finished(slots, f, artifact).Ok?
            && Finished(slots, f, artifact).value.1 == slots[c := Ready(artifact)]
            && Finished(slots, f, artifact).value.2 == f.(lifecycle := f.lifecycle[c := Prepared])
  {
  }

  /** A failure finds the reservation it gives back. */
  lemma FailureReleases(cfg: Config, s: System, id: Identity)
    requires ReservationsMatch(cfg, s) && s.control == Handling(TaskFailed(id))
    ensures var c := id.coord;
            && c in s.slots && s.slots[c] == InFlight(id)
            && Handled(cfg, s, s.control.event)
               == s.(slots := s.slots - {c}, retained := s.retained - {id},
                     retries := s.retries[c := AfterFailure(cfg, RetryOf(s, c), s.now)],
                     failures := s.failures[c := s.FailuresOf(c) + 1], control := Consuming)
            && Acts(s.Runtime(), Abandon(id), Handled(cfg, s, s.control.event).Runtime())
  {
    assert Holds(s, s.control.event);
    HeldEventCounts(s, s.control.event);
  }

  // ----- The runtime invariant -----

  lemma HandleKeepsRuntime(cfg: Config, s: System)
    requires Safe(cfg, s) && s.control.Handling?
    ensures Invariant(Handled(cfg, s, s.control.event).Runtime())
  {
    var t := Handled(cfg, s, s.control.event);
    match s.control.event {
      case TaskCompleted(artifact) =>
        CompletionCommits(cfg, s, artifact);
        ActsKeepsInvariant(s.Runtime(), Finish(artifact), t.Runtime());
      case TaskFailed(id) =>
        FailureReleases(cfg, s, id);
        ActsKeepsInvariant(s.Runtime(), Abandon(id), t.Runtime());
    }
  }

  lemma AdvanceKeepsRuntime(cfg: Config, s: System)
    requires Invariant(s.Runtime()) && s.control.Scheduling?
    ensures Invariant(Advanced(cfg, s, s.control.loop).Runtime())
  {
    var t := Advanced(cfg, s, s.control.loop);
    if t.slots == s.slots {
      AdvancedFrame(cfg, s, s.control.loop);
      assert t.Runtime() == s.Runtime();
    } else {
      AdvancedRequests(cfg, s, s.control.loop);
      ActsKeepsInvariant(s.Runtime(), Request(t.control.id), t.Runtime());
    }
  }

  lemma CancelKeepsRuntime(s: System, id: Identity, closed: bool)
    requires Invariant(s.Runtime())
    ensures Invariant(Cancelled(s, id, closed).Runtime())
  {
    var t := Cancelled(s, id, closed);
    if t.slots == s.slots {
      CancelledFrame(s, id, closed);
      assert t.Runtime() == s.Runtime();
    } else {
      ActsKeepsInvariant(s.Runtime(), Abandon(id), t.Runtime());
    }
  }

  // ----- Every step keeps the system safe -----

  /** A step of control alone that starts no reservation. */
  ghost predicate ControlOnly(s: System, t: System) {
    && SamePipes(s, t) && t.frontier == s.frontier && t.slots == s.slots && t.retained == s.retained
    && !s.control.Handling? && !t.control.Handling?
    && (Pending(t.control) == Pending(s.control) || Pending(t.control) == None)
  }

  lemma ControlKeepsCore(cfg: Config, s: System, t: System)
    requires Core(cfg, s) && ControlOnly(s, t)
    ensures Core(cfg, t)
  {
    forall id
      ensures PipelineCount(t, id) == PipelineCount(s, id)
    {
      QuietMoves(s, t, id);
    }
    forall event | Holds(t, event)
      ensures Holds(s, event)
    {
    }
  }

  lemma BeginKeepsAccounts(cfg: Config, s: System, instant: nat, t: System)
    requires Accounts(cfg, s) && BeginStep(s, instant, t)
    ensures Accounts(cfg, t)
  {
    assert Occupied(t) == Occupied(s);
    assert forall id :: WorkerCount(t, id) == WorkerCount(s, id);
  }

  lemma EndConsumeKeepsAccounts(cfg: Config, s: System, candidates: seq<Coord>, t: System)
    requires Accounts(cfg, s) && EndConsumeStep(cfg, s, candidates, t)
    ensures Accounts(cfg, t)
  {
    EndConsumeKeepsBudget(cfg, s, candidates, t);
    assert forall id :: WorkerCount(t, id) == WorkerCount(s, id);
    assert t.outstanding == s.outstanding && t.worker == s.worker && !Marked(t.control);
  }

  lemma EndConsumeKeepsBudget(cfg: Config, s: System, candidates: seq<Coord>, t: System)
    requires WithinBudget(cfg, s) && EndConsumeStep(cfg, s, candidates, t)
    ensures WithinBudget(cfg, t)
  {
    assert Occupied(t) == Occupied(s);
  }

  lemma MarkKeepsAccounts(cfg: Config, s: System, t: System)
    requires Accounts(cfg, s) && MarkStep(s, t)
    ensures Accounts(cfg, t)
  {
    assert Occupied(t) == Occupied(s);
    MarkKeepsOutstanding(s, t);
  }

  lemma MarkKeepsOutstanding(s: System, t: System)
    requires OutstandingExact(s) && MarkStep(s, t)
    ensures OutstandingExact(t)
  {
    MarkFrame(s, t);
    assert forall id :: WorkerCount(t, id) == WorkerCount(s, id);
  }

  /** Marking changes the set by the marked identity, unless it is there already. */
  lemma MarkFrame(s: System, t: System)
    requires MarkStep(s, t)
    ensures SamePipes(s, t) && t.outstanding == s.outstanding + {s.control.id}
    ensures Marked(t.control) <==> s.control.id !in s.outstanding
    ensures Marked(t.control) ==> t.control.id == s.control.id
  {
    if s.control.id in s.outstanding {
      assert s.outstanding + {s.control.id} == s.outstanding;
    }
  }

  lemma UnmarkKeepsAccounts(cfg: Config, s: System, t: System)
    requires Accounts(cfg, s) && UnmarkStep(s, t)
    requires PipelineCount(s, s.control.id) == 0
    ensures Accounts(cfg, t)
  {
    assert Occupied(t) == Occupied(s);
    assert forall id :: WorkerCount(t, id) == WorkerCount(s, id);
  }

  lemma BeginKeeps(cfg: Config, s: System, instant: nat, t: System)
    requires Safe(cfg, s) && BeginStep(s, instant, t)
    ensures Safe(cfg, t)
  {
    ControlKeepsCore(cfg, s, t);
    BeginKeepsAccounts(cfg, s, instant, t);
    assert t.Runtime() == s.Runtime();
  }

  lemma EndConsumeKeeps(cfg: Config, s: System, candidates: seq<Coord>, t: System)
    requires Safe(cfg, s) && EndConsumeStep(cfg, s, candidates, t)
    ensures Safe(cfg, t)
  {
    EndConsumeControl(cfg, s, candidates, t);
    ControlKeepsCore(cfg, s, t);
    EndConsumeKeepsAccounts(cfg, s, candidates, t);
  }

  lemma EndConsumeControl(cfg: Config, s: System, candidates: seq<Coord>, t: System)
    requires EndConsumeStep(cfg, s, candidates, t)
    ensures ControlOnly(s, t) && t.Runtime() == s.Runtime()
  {
  }

  lemma MarkKeeps(cfg: Config, s: System, t: System)
    requires Safe(cfg, s) && MarkStep(s, t)
    ensures Safe(cfg, t)
  {
    ControlKeepsCore(cfg, s, t);
    MarkKeepsAccounts(cfg, s, t);
    assert t.Runtime() == s.Runtime();
  }

  lemma UnmarkKeeps(cfg: Config, s: System, t: System)
    requires Safe(cfg, s) && UnmarkStep(s, t)
    ensures Safe(cfg, t)
  {
    ControlKeepsCore(cfg, s, t);
    UnmarkKeepsAccounts(cfg, s, t);
    assert t.Runtime() == s.Runtime();
  }

  // Receiving and submitting

  lemma ReceiveKeeps(cfg: Config, s: System, t: System)
    requires Safe(cfg, s) && ReceiveStep(s, t)
    ensures Safe(cfg, t)
  {
    ReceiveKeepsCore(cfg, s, t);
    ReceiveKeepsAccounts(cfg, s, t);
    assert t.Runtime() == s.Runtime();
  }

  lemma ReceiveKeepsCore(cfg: Config, s: System, t: System)
    requires Core(cfg, s) && ReceiveStep(s, t)
    ensures Core(cfg, t)
  {
    forall id
      ensures PipelineCount(t, id) == PipelineCount(s, id)
    {
      ReceiveMoves(s, t, id);
    }
    assert s.results[0] in s.results;
    forall event | Holds(t, event)
      ensures Holds(s, event)
    {
    }
  }

  lemma ReceiveKeepsAccounts(cfg: Config, s: System, t: System)
    requires Accounts(cfg, s) && ReceiveStep(s, t)
    ensures Accounts(cfg, t)
  {
    assert Occupied(t) == Occupied(s);
    forall id
      ensures WorkerCount(t, id) == WorkerCount(s, id)
    {
      ReceiveMoves(s, t, id);
    }
  }

  lemma TrySendKeeps(cfg: Config, s: System, t: System)
    requires Safe(cfg, s) && TrySendStep(cfg, s, t)
    ensures Safe(cfg, t)
  {
    TrySendKeepsCore(cfg, s, t);
    TrySendKeepsAccounts(cfg, s, t);
    assert t.Runtime() == s.Runtime();
  }

  /** The queued identity was in no queue: its reservation is new. */
  lemma TrySendKeepsCore(cfg: Config, s: System, t: System)
    requires Core(cfg, s) && TrySendStep(cfg, s, t)
    ensures Core(cfg, t)
  {
    forall id
      ensures PipelineCount(t, id) == PipelineCount(s, id) + (if Queued(s, t) == Some(id) then 1 else 0)
    {
      TrySendMoves(cfg, s, t, id);
    }
    assert |s.requests + [s.control.id]| != |s.requests|;
    forall event | Holds(t, event)
      ensures Holds(s, event)
    {
    }
  }

  lemma TrySendKeepsAccounts(cfg: Config, s: System, t: System)
    requires Accounts(cfg, s) && TrySendStep(cfg, s, t)
    ensures Accounts(cfg, t)
  {
    TrySendKeepsBudget(cfg, s, t);
    TrySendKeepsOutstanding(cfg, s, t);
    TrySendKeepsBails(cfg, s, t);
  }

  lemma TrySendKeepsBudget(cfg: Config, s: System, t: System)
    requires WithinBudget(cfg, s) && TrySendStep(cfg, s, t)
    ensures WithinBudget(cfg, t)
  {
    TrySendFrame(cfg, s, t);
    assert Occupied(t) == Occupied(s);
  }

  lemma TrySendKeepsBails(cfg: Config, s: System, t: System)
    requires BailsOnlyWhenLost(s) && TrySendStep(cfg, s, t)
    ensures BailsOnlyWhenLost(t)
  {
  }

  lemma TrySendKeepsOutstanding(cfg: Config, s: System, t: System)
    requires OutstandingExact(s) && TrySendStep(cfg, s, t)
    ensures OutstandingExact(t)
  {
    forall id
      ensures WorkerCount(t, id) == WorkerCount(s, id) + (if Queued(s, t) == Some(id) then 1 else 0)
    {
      TrySendMoves(cfg, s, t, id);
    }
    assert |s.requests + [s.control.id]| != |s.requests|;
  }

  // Committing, reserving and giving back

  lemma HandleKeepsCore(cfg: Config, s: System)
    requires Safe(cfg, s) && s.control.Handling?
    ensures Core(cfg, Handled(cfg, s, s.control.event))
  {
    var event := s.control.event;
    var t := Handled(cfg, s, event);
    if event.TaskCompleted? {
      CompletionCommits(cfg, s, event.artifact);
    } else {
      FailureReleases(cfg, s, event.failed);
    }
    forall id
      ensures PipelineCount(s, id) == PipelineCount(t, id) + (if event.Owner() == id then 1 else 0)
    {
      HandleMoves(cfg, s, t, id);
    }
    HandledReservations(cfg, s, t);
    HandledFrame(cfg, s, event);
    HandledArtifacts(cfg, s, t);
  }

  /** Only the terrain of the handled failure is dropped, and no held event is about it. */
  lemma HandledArtifacts(cfg: Config, s: System, t: System)
    requires ReservationsMatch(cfg, s) && ArtifactsRetained(s)
    requires s.control.Handling? && t == Handled(cfg, s, s.control.event) && SamePipes(s, t) && t.control == Consuming
    requires t.retained == (if s.control.event.TaskFailed? then s.retained - {s.control.event.failed} else s.retained)
    ensures ArtifactsRetained(t)
  {
    forall e | Holds(t, e) && e.TaskCompleted?
      ensures e.Owner() in t.retained && t.retained[e.Owner()] == Content(e.artifact.digest, e.artifact.bytes)
    {
      assert Holds(s, e);
      HeldEventCounts(t, e);
      HandleMoves(cfg, s, t, e.Owner());
    }
  }

  lemma HandledReservations(cfg: Config, s: System, t: System)
    requires ReservationsMatch(cfg, s) && s.control.Handling?
    requires forall id ::
               PipelineCount(s, id) == PipelineCount(t, id) + (if s.control.event.Owner() == id then 1 else 0)
    requires var id := s.control.event.Owner();
             t.control == Consuming && id.coord in s.slots && s.slots[id.coord] == InFlight(id)
             && (if s.control.event.TaskCompleted? then t.slots == s.slots[id.coord := Ready(s.control.event.artifact)]
                 else t.slots == s.slots - {id.coord})
    ensures ReservationsMatch(cfg, t)
  {
    forall other | PipelineCount(t, other) > 0
      ensures PipelineCount(t, other) == 1 && other.coord in t.slots && t.slots[other.coord] == InFlight(other)
    {
      assert PipelineCount(s, other) > 0;
    }
  }

  lemma HandleKeepsAccounts(cfg: Config, s: System)
    requires Safe(cfg, s) && s.control.Handling?
    ensures Accounts(cfg, Handled(cfg, s, s.control.event))
  {
    var event := s.control.event;
    match event {
      case TaskCompleted(artifact) => CompletionWithinBudget(cfg, s, artifact);
      case TaskFailed(id) => FailureWithinBudget(cfg, s, id);
    }
    HandledFrame(cfg, s, event);
    HandledOutstanding(cfg, s, Handled(cfg, s, event));
  }

  lemma CompletionWithinBudget(cfg: Config, s: System, artifact: Artifact)
    requires Invariant(s.Runtime()) && Core(cfg, s) && s.control == Handling(TaskCompleted(artifact))
    requires WithinBudget(cfg, s)
    ensures var t := Handled(cfg, s, s.control.event);
            WithinBudget(cfg, t) && t.control == Consuming
  {
    CompletionCommits(cfg, s, artifact);
    CompletionOccupies(s, Handled(cfg, s, s.control.event), artifact.identity.coord);
  }

  lemma FailureWithinBudget(cfg: Config, s: System, id: Identity)
    requires ReservationsMatch(cfg, s) && s.control == Handling(TaskFailed(id)) && WithinBudget(cfg, s)
    ensures var t := Handled(cfg, s, s.control.event);
            WithinBudget(cfg, t) && t.control == Consuming
  {
    FailureReleases(cfg, s, id);
    assert InFlightSet(Handled(cfg, s, s.control.event).slots) == InFlightSet(s.slots) - {id.coord};
  }

  lemma CompletionOccupies(s: System, t: System, c: Coord)
    requires c in s.slots && s.slots[c].InFlight? && s.frontier.PhaseOf(c) == Candidate
    requires t.frontier.lifecycle == s.frontier.lifecycle[c := Prepared]
    requires t.slots.Keys == s.slots.Keys && t.slots[c].Ready?
    requires forall d :: d in s.slots && d != c ==> t.slots[d] == s.slots[d]
    ensures Occupied(t) == Occupied(s)
  {
    assert PreparedSet(t.frontier) == PreparedSet(s.frontier) + {c};
    assert InFlightSet(t.slots) == InFlightSet(s.slots) - {c};
  }

  lemma HandledOutstanding(cfg: Config, s: System, t: System)
    requires OutstandingExact(s) && s.control.Handling? && t == Handled(cfg, s, s.control.event)
    ensures OutstandingExact(t)
  {
    HandledFrame(cfg, s, s.control.event);
    forall id
      ensures WorkerCount(t, id) == WorkerCount(s, id)
    {
      HandleMoves(cfg, s, t, id);
    }
  }

  lemma HandleKeeps(cfg: Config, s: System)
    requires Safe(cfg, s) && s.control.Handling?
    ensures Safe(cfg, Handled(cfg, s, s.control.event))
  {
    HandleKeepsRuntime(cfg, s);
    HandleKeepsCore(cfg, s);
    HandleKeepsAccounts(cfg, s);
  }

  /** A candidate whose slot is free is reserved under its own identity; a taken slot holds that
      identity already. */
  lemma AdvanceOutcome(cfg: Config, s: System, loop: Loop)
    requires ReservationsMatch(cfg, s) && s.control == Scheduling(loop)
    requires forall c: Coord :: c in loop.rest ==> s.frontier.PhaseOf(c) == Candidate
    ensures var t := Advanced(cfg, s, loop);
            || ControlOnly(s, t)
            || (&& loop.rest != [] && loop.admitted < loop.budget && RetryAllows(s, loop.rest[0])
                && loop.rest[0] !in s.slots
                && t == s.(slots := s.slots[loop.rest[0] := InFlight(cfg.IdentityOf(loop.rest[0]))],
                           control := Reserved(cfg.IdentityOf(loop.rest[0]), loop.(rest := loop.rest[1..]))))
    ensures var t := Advanced(cfg, s, loop);
            !t.control.Bailed? && !Marked(t.control)
            && (t.control.Scheduling? ==> loop.rest != [] && t.control.loop == loop.(rest := loop.rest[1..]))
  {
    if loop.rest != [] {
      assert loop.rest[0] in loop.rest;
    }
  }

  lemma AdvanceKeeps(cfg: Config, s: System)
    requires Safe(cfg, s) && s.control.Scheduling?
    ensures Safe(cfg, Advanced(cfg, s, s.control.loop))
  {
    var loop := s.control.loop;
    var t := Advanced(cfg, s, loop);
    AdvanceKeepsRuntime(cfg, s);
    AdvanceOutcome(cfg, s, loop);
    AdvancedFrame(cfg, s, loop);
    if ControlOnly(s, t) {
      ControlKeepsCore(cfg, s, t);
      AdvanceKeepsBudget(cfg, s, t);
    } else {
      ReserveKeepsCore(cfg, s, loop.rest[0], t);
      ReserveKeepsBudget(cfg, s, loop.rest[0], t);
    }
    AdvanceKeepsOutstanding(s, t);
  }

  lemma AdvanceKeepsBudget(cfg: Config, s: System, t: System)
    requires WithinBudget(cfg, s) && s.control.Scheduling? && ControlOnly(s, t)
    requires t.control.Scheduling? ==>
               s.control.loop.rest != [] && t.control.loop == s.control.loop.(rest := s.control.loop.rest[1..])
    requires t.control.Scheduling? || LoopOf(t.control).None?
    ensures WithinBudget(cfg, t)
  {
    assert Occupied(t) == Occupied(s);
  }

  lemma AdvanceKeepsOutstanding(s: System, t: System)
    requires OutstandingExact(s) && SamePipes(s, t) && t.outstanding == s.outstanding
    requires !Marked(s.control) && !Marked(t.control)
    ensures OutstandingExact(t)
  {
    assert forall id :: WorkerCount(t, id) == WorkerCount(s, id);
  }

  lemma ReserveKeepsCore(cfg: Config, s: System, c: Coord, t: System)
    requires Core(cfg, s) && s.control.Scheduling? && c !in s.slots
    requires t.control.Reserved?
    requires t == s.(slots := s.slots[c := InFlight(cfg.IdentityOf(c))],
                     control := Reserved(cfg.IdentityOf(c), t.control.loop))
    ensures Core(cfg, t)
  {
    forall id
      ensures PipelineCount(t, id) == PipelineCount(s, id)
    {
      QuietMoves(s, t, id);
    }
    forall event | Holds(t, event)
      ensures Holds(s, event)
    {
    }
  }

  lemma ReserveKeepsBudget(cfg: Config, s: System, c: Coord, t: System)
    requires WithinBudget(cfg, s) && s.control.Scheduling? && c !in s.slots
    requires s.control.loop.rest != [] && s.control.loop.rest[0] == c && s.control.loop.admitted < s.control.loop.budget
    requires t == s.(slots := s.slots[c := InFlight(cfg.IdentityOf(c))],
                     control := Reserved(cfg.IdentityOf(c), s.control.loop.(rest := s.control.loop.rest[1..])))
    ensures WithinBudget(cfg, t)
  {
    ReserveOccupies(s, c, cfg.IdentityOf(c), t);
    assert t.control.loop.rest == s.control.loop.rest[1..];
    assert forall d: Coord :: d in t.control.loop.rest ==> d in s.control.loop.rest;
  }

  lemma ReserveOccupies(s: System, c: Coord, id: Identity, t: System)
    requires c !in s.slots && t.slots == s.slots[c := InFlight(id)] && t.frontier == s.frontier
    ensures Occupied(t) == Occupied(s) + 1
  {
    assert InFlightSet(t.slots) == InFlightSet(s.slots) + {c};
  }

  /** A reservation that could not be queued is given back. */
  lemma CancelOutcome(cfg: Config, s: System)
    requires ReservationsMatch(cfg, s) && s.control.Cancelling?
    ensures Cancelled(s, s.control.id, s.control.closed)
            == s.(slots := s.slots - {s.control.id.coord},
                  control := if s.control.closed then Bailed(QueueClosed) else Resting)
  {
  }

  lemma CancelKeeps(cfg: Config, s: System)
    requires Safe(cfg, s) && s.control.Cancelling?
    ensures Safe(cfg, Cancelled(s, s.control.id, s.control.closed))
  {
    var t := Cancelled(s, s.control.id, s.control.closed);
    CancelKeepsRuntime(s, s.control.id, s.control.closed);
    CancelOutcome(cfg, s);
    CancelKeepsCore(cfg, s, t);
    assert InFlightSet(t.slots) <= InFlightSet(s.slots);
    SubsetSize(InFlightSet(t.slots), InFlightSet(s.slots));
    AdvanceKeepsOutstanding(s, t);
  }

  lemma SubsetSize(small: set<Coord>, large: set<Coord>)
    requires small <= large
    ensures |small| <= |large|
  {
    assert large == small + (large - small);
  }

  lemma CancelKeepsCore(cfg: Config, s: System, t: System)
    requires Core(cfg, s) && s.control.Cancelling? && t == Cancelled(s, s.control.id, s.control.closed)
    ensures Core(cfg, t)
  {
    CancelOutcome(cfg, s);
    forall id
      ensures PipelineCount(t, id) == PipelineCount(s, id)
    {
      QuietMoves(s, t, id);
    }
    forall event | Holds(t, event)
      ensures Holds(s, event)
    {
    }
  }

  lemma RevealKeeps(cfg: Config, s: System, c: Coord, transition: TransitionRecord, derived: seq<Coord>, t: System)
    requires Safe(cfg, s) && RevealStep(s, c, transition, derived, t)
    ensures Safe(cfg, t)
  {
    ActsKeepsInvariant(s.Runtime(), Reveal(c, transition, derived), t.Runtime());
    RevealKeepsCore(cfg, s, t);
    RevealFreesBudget(s.Runtime(), c, transition, derived, t.Runtime());
    assert t.slots == s.slots;
    SubsetSize(PreparedSet(t.frontier), PreparedSet(s.frontier));
    AdvanceKeepsOutstanding(s, t);
  }

  lemma RevealFreesBudget(v: RuntimeView, c: Coord, transition: TransitionRecord, derived: seq<Coord>, w: RuntimeView)
    requires Acts(v, Reveal(c, transition, derived), w)
    ensures PreparedSet(w.frontier) <= PreparedSet(v.frontier)
  {
  }

  lemma RevealKeepsCore(cfg: Config, s: System, t: System)
    requires Core(cfg, s) && s.control.Resting? && t == s.(frontier := t.frontier)
    ensures Core(cfg, t)
  {
    forall id
      ensures PipelineCount(t, id) == PipelineCount(s, id)
    {
      QuietMoves(s, t, id);
    }
    forall event | Holds(t, event)
      ensures Holds(s, event)
    {
    }
  }

  // The worker's steps

  /** Worker steps leave the books and the scheduler alone. */
  ghost predicate WorkerFrame(s: System, t: System) {
    && t.frontier == s.frontier && t.slots == s.slots && t.control == s.control
    && t.retries == s.retries && t.failures == s.failures && t.now == s.now
  }

  lemma WorkerKeepsBudget(cfg: Config, s: System, t: System)
    requires WithinBudget(cfg, s) && WorkerFrame(s, t)
    ensures WithinBudget(cfg, t)
  {
    assert Occupied(t) == Occupied(s);
  }

  lemma WorkerKeepsReservations(cfg: Config, s: System, t: System)
    requires ReservationsMatch(cfg, s) && WorkerFrame(s, t)
    requires forall id :: PipelineCount(t, id) <= PipelineCount(s, id)
    ensures ReservationsMatch(cfg, t)
  {
  }

  lemma WorkerKeepsArtifacts(s: System, t: System)
    requires ArtifactsRetained(s) && t.retained == s.retained
    requires forall event :: Holds(t, event) ==> Holds(s, event)
    ensures ArtifactsRetained(t)
  {
  }

  lemma WorkerKeepsSafe(cfg: Config, s: System, t: System)
    requires Safe(cfg, s) && WorkerFrame(s, t)
    requires forall id :: PipelineCount(t, id) <= PipelineCount(s, id)
    requires ArtifactsRetained(t) && OutstandingExact(t)
    requires s.worker.Stopped? ==> t.worker.Stopped?
    requires s.worker.ResultsClosed() ==> t.worker.ResultsClosed()
    ensures Safe(cfg, t)
  {
    WorkerKeepsReservations(cfg, s, t);
    WorkerKeepsBudget(cfg, s, t);
    assert t.Runtime() == s.Runtime();
  }

  lemma TakeKeeps(cfg: Config, s: System, t: System)
    requires Safe(cfg, s) && TakeStep(cfg, s, t)
    ensures Safe(cfg, t)
  {
    forall id
      ensures WorkerCount(t, id) == WorkerCount(s, id) && PipelineCount(t, id) == PipelineCount(s, id)
    {
      TakeMoves(cfg, s, t, id);
    }
    TakeKeepsEvents(cfg, s, t);
    WorkerKeepsArtifacts(s, t);
    WorkerKeepsSafe(cfg, s, t);
  }

  lemma TakeKeepsEvents(cfg: Config, s: System, t: System)
    requires TakeStep(cfg, s, t)
    ensures forall event :: Holds(t, event) ==> Holds(s, event)
  {
  }

  lemma ExecuteKeeps(cfg: Config, s: System, i: nat, produced: Option<Content>, t: System)
    requires Safe(cfg, s) && ExecuteStep(s, i, produced, t)
    ensures Safe(cfg, t)
  {
    forall id
      ensures WorkerCount(t, id) == WorkerCount(s, id) && PipelineCount(t, id) == PipelineCount(s, id)
    {
      ExecuteMoves(s, i, produced, t, id);
    }
    ExecuteKeepsArtifacts(cfg, s, i, produced, t);
    ExecuteKeepsOutstanding(s, i, produced, t);
    WorkerKeepsSafe(cfg, s, t);
  }

  lemma ExecuteKeepsOutstanding(s: System, i: nat, produced: Option<Content>, t: System)
    requires OutstandingExact(s) && ExecuteStep(s, i, produced, t)
    ensures OutstandingExact(t)
  {
    forall id
      ensures WorkerCount(t, id) == WorkerCount(s, id)
    {
      ExecuteMoves(s, i, produced, t, id);
    }
  }

  /** What a task keeps is about its own identity, which no other event is about. */
  lemma ExecuteKeepsArtifacts(cfg: Config, s: System, i: nat, produced: Option<Content>, t: System)
    requires ReservationsMatch(cfg, s) && ArtifactsRetained(s) && ExecuteStep(s, i, produced, t)
    ensures ArtifactsRetained(t)
  {
    var id := s.tasks[i].id;
    forall event | Holds(t, event) && event.TaskCompleted?
      ensures event.Owner() in t.retained
              && t.retained[event.Owner()] == Content(event.artifact.digest, event.artifact.bytes)
    {
      if t.tasks[i] != Done(event) {
        assert Holds(s, event);
        if event.Owner() == id {
          RunningTaskIsAlone(s, i, event);
          assert false;
        }
      }
    }
  }

  lemma OtherOccurrence(owners: seq<Identity>, i: nat, k: nat, id: Identity)
    requires i < |owners| && k < |owners| && i != k && owners[k] == id
    ensures Occurrences(owners[..i] + owners[i + 1..], id) > 0
  {
    var others := owners[..i] + owners[i + 1..];
    assert others[if k < i then k else k - 1] == id;
  }

  lemma RunningTaskIsAlone(s: System, i: nat, event: Event)
    requires i < |s.tasks| && s.tasks[i].Running? && Holds(s, event) && event.Owner() == s.tasks[i].id
    ensures PipelineCount(s, event.Owner()) >= 2
  {
    var id := event.Owner();
    var owners := TaskOwners(s.tasks);
    OneRemoved(owners, i, id);
    if k :| 0 <= k < |s.tasks| && s.tasks[k] == Done(event) {
      OtherOccurrence(owners, i, k, id);
    } else if k :| 0 <= k < |s.results| && s.results[k] == event {
      assert EventOwners(s.results)[k] == id;
    }
  }

  lemma JoinKeeps(cfg: Config, s: System, i: nat, t: System)
    requires Safe(cfg, s) && JoinStep(s, i, t)
    ensures Safe(cfg, t)
  {
    forall id
      ensures WorkerCount(t, id) == WorkerCount(s, id) && PipelineCount(t, id) == PipelineCount(s, id)
    {
      JoinMoves(s, i, t, id);
    }
    JoinKeepsEvents(s, i, t);
    WorkerKeepsArtifacts(s, t);
    WorkerKeepsSafe(cfg, s, t);
  }

  lemma JoinKeepsEvents(s: System, i: nat, t: System)
    requires JoinStep(s, i, t)
    ensures forall event :: Holds(t, event) ==> Holds(s, event)
  {
    forall event | Holds(t, event)
      ensures Holds(s, event)
    {
      if k :| 0 <= k < |t.tasks| && t.tasks[k] == Done(event) {
        assert s.tasks[if k < i then k else k + 1] == Done(event);
      } else if t.worker == Delivering(event) {
        assert s.tasks[i] == Done(event);
      }
    }
  }

  lemma DeliverKeeps(cfg: Config, s: System, t: System)
    requires Safe(cfg, s) && DeliverStep(cfg, s, t)
    ensures Safe(cfg, t)
  {
    forall id
      ensures PipelineCount(t, id) == PipelineCount(s, id)
    {
      DeliverMoves(cfg, s, t, id);
    }
    assert forall event :: Holds(t, event) ==> Holds(s, event);
    WorkerKeepsArtifacts(s, t);
    DeliverKeepsOutstanding(cfg, s, t);
    WorkerKeepsSafe(cfg, s, t);
  }

  lemma DeliverKeepsOutstanding(cfg: Config, s: System, t: System)
    requires ReservationsMatch(cfg, s) && OutstandingExact(s) && DeliverStep(cfg, s, t)
    ensures OutstandingExact(t)
  {
    var owner := s.worker.event.Owner();
    assert PipelineCount(s, owner) == 1;
    forall id
      ensures WorkerCount(s, id) == WorkerCount(t, id) + (if owner == id then 1 else 0)
    {
      DeliverMoves(cfg, s, t, id);
    }
  }

  lemma ReleaseKeeps(cfg: Config, s: System, t: System)
    requires Safe(cfg, s) && ReleaseStep(s, t)
    ensures Safe(cfg, t)
  {
    ReleaseMoves(s, t);
    WorkerKeepsArtifacts(s, t);
    ReleaseKeepsOutstanding(s, t);
    WorkerKeepsSafe(cfg, s, t);
  }

  lemma ReleaseMoves(s: System, t: System)
    requires ReleaseStep(s, t)
    ensures forall id :: PipelineCount(t, id) == PipelineCount(s, id)
    ensures forall event :: Holds(t, event) ==> Holds(s, event)
  {
    assert forall id :: WorkerCount(t, id) == WorkerCount(s, id);
  }

  lemma ReleaseKeepsOutstanding(s: System, t: System)
    requires OutstandingExact(s) && ReleaseStep(s, t)
    ensures OutstandingExact(t)
  {
    assert forall id :: WorkerCount(t, id) == WorkerCount(s, id);
  }

  lemma EndingKeeps(cfg: Config, s: System, t: System)
    requires Safe(cfg, s) && EndingStep(s, t)
    ensures Safe(cfg, t)
  {
    forall id
      ensures PipelineCount(t, id) <= PipelineCount(s, id)
    {
      EndingMoves(s, t, id);
    }
    EndingFrame(s, t);
    EndingEvents(s, t);
    WorkerKeepsArtifacts(s, t);
    WorkerKeepsSafe(cfg, s, t);
  }

  lemma EndingFrame(s: System, t: System)
    requires EndingStep(s, t)
    ensures WorkerFrame(s, t) && t.retained == s.retained && OutstandingExact(t)
    ensures s.worker.Stopped? ==> t.worker.Stopped?
    ensures s.worker.ResultsClosed() ==> t.worker.ResultsClosed()
  {
  }

  lemma EndingEvents(s: System, t: System)
    requires EndingStep(s, t)
    ensures forall event :: Holds(t, event) ==> Holds(s, event)
  {
  }

  lemma SchedulerKeepsSafe(cfg: Config, s: System, step: Step, t: System)
    requires Safe(cfg, s) && SchedulerNext(cfg, s, step, t)
    ensures Safe(cfg, t)
  {
    match step
    case Begin(instant) => BeginKeeps(cfg, s, instant, t);
    case Receive => ReceiveKeeps(cfg, s, t);
    case Handle => HandleKeeps(cfg, s);
    case EndConsume(candidates) => EndConsumeKeeps(cfg, s, candidates, t);
    case Advance => AdvanceKeeps(cfg, s);
    case MarkOutstanding => MarkKeeps(cfg, s, t);
    case TrySend => TrySendKeeps(cfg, s, t);
    case Unmark => UnmarkKeeps(cfg, s, t);
    case Cancel => CancelKeeps(cfg, s);
    case RevealQuadrant(c, transition, derived) => RevealKeeps(cfg, s, c, transition, derived, t);
  }

  lemma WorkerStepKeepsSafe(cfg: Config, s: System, step: Step, t: System)
    requires Safe(cfg, s) && WorkerNext(cfg, s, step, t)
    ensures Safe(cfg, t)
  {
    match step
    case Take => TakeKeeps(cfg, s, t);
    case Execute(i, produced) => ExecuteKeeps(cfg, s, i, produced, t);
    case Join(i) => JoinKeeps(cfg, s, i, t);
    case Deliver => DeliverKeeps(cfg, s, t);
    case ReleaseOutstanding => ReleaseKeeps(cfg, s, t);
    case Crash => EndingKeeps(cfg, s, t);
    case Detach => EndingKeeps(cfg, s, t);
    case Close => EndingKeeps(cfg, s, t);
  }

  // ----- Retries -----

  lemma CompletionKeepsRetries(cfg: Config, s: System, t: System)
    requires Invariant(s.Runtime()) && Core(cfg, s) && RetriesCount(cfg, s)
    requires s.control.Handling? && s.control.event.TaskCompleted? && t == Handled(cfg, s, s.control.event)
    ensures RetriesCount(cfg, t)
  {
    CompletionCommits(cfg, s, s.control.event.artifact);
    DroppedRetryKeeps(cfg, s, t, s.control.event.artifact);
  }

  lemma DroppedRetryKeeps(cfg: Config, s: System, t: System, artifact: Artifact)
    requires RetriesCount(cfg, s) && artifact.identity.coord in s.slots
    requires var c := artifact.identity.coord;
             && t.failures == s.failures && t.retries == s.retries - {c} && t.slots == s.slots[c := Ready(artifact)]
    ensures RetriesCount(cfg, t)
  {
    assert forall d: Coord :: t.FailuresOf(d) == s.FailuresOf(d);
  }

  lemma FailureKeepsRetries(cfg: Config, s: System, t: System)
    requires cfg.maxRetries < U32_MAX
    requires ReservationsMatch(cfg, s) && RetriesCount(cfg, s)
    requires s.control.Handling? && s.control.event.TaskFailed? && t == Handled(cfg, s, s.control.event)
    ensures RetriesCount(cfg, t)
  {
    FailureReleases(cfg, s, s.control.event.failed);
    CountedFailureKeeps(cfg, s, t, s.control.event.failed.coord);
  }

  lemma CountedFailureKeeps(cfg: Config, s: System, t: System, c: Coord)
    requires cfg.maxRetries < U32_MAX && RetriesCount(cfg, s) && c in s.slots && s.slots[c].InFlight?
    requires && t.failures == s.failures[c := s.FailuresOf(c) + 1] && t.slots == s.slots - {c}
             && t.retries == s.retries[c := AfterFailure(cfg, RetryOf(s, c), s.now)]
    ensures RetriesCount(cfg, t)
  {
    assert t.FailuresOf(c) == s.FailuresOf(c) + 1;
    forall d: Coord | d != c
      ensures t.FailuresOf(d) == s.FailuresOf(d) && (d in t.retries <==> d in s.retries)
    {
    }
  }

  lemma AdvanceKeepsRetries(cfg: Config, s: System, t: System)
    requires ReservationsMatch(cfg, s) && WithinBudget(cfg, s) && RetriesCount(cfg, s)
    requires s.control.Scheduling? && t == Advanced(cfg, s, s.control.loop)
    ensures RetriesCount(cfg, t)
  {
    AdvanceOutcome(cfg, s, s.control.loop);
    AdvancedFrame(cfg, s, s.control.loop);
    assert forall c: Coord :: t.FailuresOf(c) == s.FailuresOf(c);
  }

  lemma CancelKeepsRetries(cfg: Config, s: System, t: System)
    requires ReservationsMatch(cfg, s) && RetriesCount(cfg, s)
    requires s.control.Cancelling? && t == Cancelled(s, s.control.id, s.control.closed)
    ensures RetriesCount(cfg, t)
  {
    CancelOutcome(cfg, s);
    assert forall c: Coord :: t.FailuresOf(c) == s.FailuresOf(c);
  }

  lemma FrameKeepsRetries(cfg: Config, s: System, t: System)
    requires RetriesCount(cfg, s)
    requires t.slots == s.slots && t.retries == s.retries && t.failures == s.failures
    ensures RetriesCount(cfg, t)
  {
    assert forall c: Coord :: t.FailuresOf(c) == s.FailuresOf(c);
  }

  /** Only handling, reserving and cancelling touch the slots or the retries. */
  lemma SchedulerFrame(cfg: Config, s: System, step: Step, t: System)
    requires SchedulerNext(cfg, s, step, t) && !step.Handle? && !step.Advance? && !step.Cancel?
    ensures t.slots == s.slots && t.retries == s.retries && t.failures == s.failures
  {
    match step
    case Begin(instant) => assert BeginStep(s, instant, t);
    case Receive => assert ReceiveStep(s, t);
    case EndConsume(candidates) => EndConsumeFrame(cfg, s, candidates, t);
    case MarkOutstanding => assert MarkStep(s, t);
    case TrySend => TrySendFrame(cfg, s, t);
    case Unmark => assert UnmarkStep(s, t);
    case RevealQuadrant(c, transition, derived) => assert t == s.(frontier := t.frontier);
  }

  lemma EndConsumeFrame(cfg: Config, s: System, candidates: seq<Coord>, t: System)
    requires EndConsumeStep(cfg, s, candidates, t)
    ensures t == s.(control := t.control)
  {
  }

  lemma TrySendFrame(cfg: Config, s: System, t: System)
    requires TrySendStep(cfg, s, t)
    ensures t == s.(requests := t.requests, control := t.control)
  {
  }

  lemma WorkerFramed(cfg: Config, s: System, step: Step, t: System)
    requires WorkerNext(cfg, s, step, t)
    ensures WorkerFrame(s, t)
  {
  }

  lemma SchedulerKeepsRetries(cfg: Config, s: System, step: Step, t: System)
    requires cfg.maxRetries < U32_MAX
    requires Safe(cfg, s) && RetriesCount(cfg, s) && SchedulerNext(cfg, s, step, t)
    ensures RetriesCount(cfg, t)
  {
    match step
    case Handle =>
      if s.control.event.TaskCompleted? { CompletionKeepsRetries(cfg, s, t); } else { FailureKeepsRetries(cfg, s, t); }
    case Advance => AdvanceKeepsRetries(cfg, s, t);
    case Cancel => CancelKeepsRetries(cfg, s, t);
    case _ => SchedulerFrame(cfg, s, step, t); FrameKeepsRetries(cfg, s, t);
  }
}
