/** Exactly which intents are admitted, and which phase changes are, told from what a run was offered
    (crates/session/src/state.rs, registry.rs, ingress.rs). */
module SessionAdmission {
  import opened MachineInts
  import opened Replay
  import opened SessionIngress

  // ----- Phases -----

  /** The phase changes there are: authentication with an account, binding to a character and a zone, and
      activation, each from the phase before it; and closing, from any. */
  predicate PhaseStep(before: SessionState, operation: Operation, after: SessionState) {
    match operation
    case Authenticate(_, account) => account != 0 && before == ProtocolAdmitted && after == Authenticated(account)
    case BindCharacter(_, character, zone) =>
      && character != 0 && zone != 0 && before.Authenticated?
      && after == CharacterBound(WorldBinding(before.account, character, zone))
    case ActivateWorld(_) => before.CharacterBound? && after == WorldActive(before.binding)
    case BeginClosing(_) => after == Closing
    case _ => false
  }

  predicate ChangesPhase(operation: Operation) {
    operation.Authenticate? || operation.BindCharacter? || operation.ActivateWorld? || operation.BeginClosing?
  }

  /** The session of a known connection, in another phase. */
  function InPhase(v: IngressView, connection: u64, state: SessionState): IngressView
    requires connection in v.registry.byConnection && v.registry.byConnection[connection] in v.registry.bySession
  {
    var session := v.registry.byConnection[connection];
    v.(registry := v.registry.(bySession :=
         v.registry.bySession[session := v.registry.bySession[session].(state := state)]))
  }

  /** A phase operation makes the one change there is from the session's phase, or none. */
  lemma PhaseChanges(v: IngressView, operation: Operation)
    requires v.registry.Consistent() && ChangesPhase(operation)
    requires operation.connection in v.registry.byConnection
    ensures var before := v.registry.bySession[v.registry.byConnection[operation.connection]].state;
            && (forall after :: PhaseStep(before, operation, after) ==>
                  Applied(v, operation) == InPhase(v, operation.connection, after))
            && ((forall after :: !PhaseStep(before, operation, after)) ==> Applied(v, operation) == v)
  {
    var before := v.registry.bySession[v.registry.byConnection[operation.connection]].state;
    match operation
    case Authenticate(_, account) =>
      assert PhaseStep(before, operation, Authenticated(account)) <==> AfterAuthenticate(before, account).Ok?;
    case BindCharacter(_, character, zone) =>
      if before.Authenticated? {
        assert PhaseStep(before, operation, CharacterBound(WorldBinding(before.account, character, zone)))
          <==> AfterBind(before, character, zone).Ok?;
      }
    case ActivateWorld(_) =>
      if before.CharacterBound? {
        assert PhaseStep(before, operation, WorldActive(before.binding));
      }
    case BeginClosing(_) => assert PhaseStep(before, operation, Closing);
  }

  // ----- Admission -----

  /** The session of the connection is known and active in the world. */
  predicate ActiveOn(v: IngressView, connection: u64) {
    && connection in v.registry.byConnection && v.registry.byConnection[connection] in v.registry.bySession
    && v.registry.bySession[v.registry.byConnection[connection]].state.WorldActive?
  }

  /** The highest sequence that a connection's session has been offered while it was active, since it was
      registered. */
  function HighestOffered(capacity: nat, operations: seq<Operation>, connection: u64): Option<u64> {
    if operations == [] then None
    else
      var last := operations[|operations| - 1];
      var before := HighestOffered(capacity, operations[..|operations| - 1], connection);
      HighestAfter(AfterAll(capacity, operations[..|operations| - 1]), last, connection, before)
  }

  function HighestAfter(v: IngressView, last: Operation, connection: u64, before: Option<u64>): Option<u64> {
    if connection !in v.registry.byConnection || last == Remove(connection) then None
    else if last.IngestMove? && last.connection == connection && ActiveOn(v, connection) then
      Some(if before.Some? then Max(before.value, last.sequence) else last.sequence)
    else before
  }

  function WindowHighest(v: IngressView, connection: u64): Option<u64> {
    if connection in v.registry.byConnection && v.registry.byConnection[connection] in v.registry.bySession
    then v.registry.bySession[v.registry.byConnection[connection]].window.highest else None
  }

  lemma ObservedHighest(w: Window, sequence: u64)
    ensures Observed(w, sequence).1.highest
      == Some(if w.highest.Some? then Max(w.highest.value, sequence) else sequence)
  {
  }

  lemma IngestHighest(v: IngressView, connection: u64, sequence: u64, payload: Payload, other: u64)
    requires v.registry.Consistent() && other in v.registry.byConnection
    ensures WindowHighest(Ingested(v, connection, sequence, payload).1, other)
      == HighestAfter(v, IngestMove(connection, sequence, payload), other, WindowHighest(v, other))
  {
    if connection in v.registry.byConnection {
      ObservedHighest(v.registry.bySession[v.registry.byConnection[connection]].window, sequence);
    }
  }

  lemma StepHighest(v: IngressView, operation: Operation, connection: u64)
    requires IngressInvariant(v) && (connection !in v.registry.byConnection ==> WindowHighest(v, connection) == None)
    ensures WindowHighest(Applied(v, operation), connection)
      == HighestAfter(v, operation, connection, WindowHighest(v, connection))
  {
    match operation
    case IngestMove(c, sequence, payload) =>
      if connection in v.registry.byConnection {
        IngestHighest(v, c, sequence, payload, connection);
      }
    case Register(_, _) =>
    case Remove(_) =>
    case TakeIntent =>
    case _ =>
      if operation.connection in v.registry.byConnection {
        RestatedHighest(v, operation, connection);
      }
  }

  lemma RestatedHighest(v: IngressView, operation: Operation, connection: u64)
    requires v.registry.Consistent() && ChangesPhase(operation)
    requires operation.connection in v.registry.byConnection
    ensures WindowHighest(Applied(v, operation), connection) == WindowHighest(v, connection)
  {
  }

  lemma {:induction false} RunHighest(capacity: nat, operations: seq<Operation>, connection: u64)
    ensures WindowHighest(AfterAll(capacity, operations), connection)
              == HighestOffered(capacity, operations, connection)
    decreases |operations|
  {
    if operations != [] {
      var before := operations[..|operations| - 1];
      RunHighest(capacity, before, connection);
      RunKeepsInvariant(capacity, before);
      StepHighest(AfterAll(capacity, before), operations[|operations| - 1], connection);
    }
  }

  /** What an offered move leads to, from the highest sequence offered before. */
  ghost predicate MoveAnswered(v: IngressView, connection: u64, sequence: u64, payload: Payload, highest: Option<u64>,
                               r: Result<(), IngressError>, after: IngressView)
  {
    if connection !in v.registry.byConnection then
      r == Err(Sequence(Registry(UnknownConnection(connection)))) && after == v
    else
      var session := v.registry.byConnection[connection];
      session in v.registry.bySession && OnlyWindow(v, after, session)
      && var live := v.registry.bySession[session];
         if !live.state.WorldActive? then r == Err(Sequence(NotWorldActive(live.state))) && after == v
         else if highest.Some? && sequence <= highest.value then
           && r.Err? && r.error.Sequence? && after.queue == v.queue && after.emitted == v.emitted
           && (r.error.intent == TooOld(highest) <==> highest.value - sequence >= 64)
           && (r.error.intent == TooOld(highest) || r.error.intent == OutOfOrder(highest)
               || r.error.intent == DuplicateSequence)
         else if |v.queue| >= v.capacity then
           r == Err(QueueFull) && after.queue == v.queue && after.emitted == v.emitted
         else
           && r == Ok(())
           && after.queue == v.queue + [AuthorizedIntent(session, live.state.binding, sequence, payload)]
  }

  /** Nothing but the window of one session differs in the registry. */
  predicate OnlyWindow(v: IngressView, after: IngressView, session: u64)
    requires session in v.registry.bySession
  {
    && session in after.registry.bySession && after.registry.byConnection == v.registry.byConnection
    && after.registry.bySession
         == v.registry.bySession[session :=
              v.registry.bySession[session].(window := after.registry.bySession[session].window)]
  }

  lemma IngestAnswers(v: IngressView, connection: u64, sequence: u64, payload: Payload)
    requires v.registry.Consistent()
    ensures MoveAnswered(v, connection, sequence, payload, WindowHighest(v, connection),
                         Ingested(v, connection, sequence, payload).0, Ingested(v, connection, sequence, payload).1)
  {
    if connection in v.registry.byConnection {
      var live := v.registry.bySession[v.registry.byConnection[connection]];
      assert v.registry.With(live) == v.registry;
    }
  }

  /** Over any run, a move is admitted if and only if its connection's session is active in the world,
      its sequence is above every one the session was offered while active, and the queue has room; it
      then stands last in the queue, under the identity bound to the session.  Otherwise the answer says
      why, and the queue stays. */
  lemma AdmittedIff(capacity: nat, operations: seq<Operation>, connection: u64, sequence: u64, payload: Payload)
    ensures var v := AfterAll(capacity, operations);
            MoveAnswered(v, connection, sequence, payload, HighestOffered(capacity, operations, connection),
                         Ingested(v, connection, sequence, payload).0, Ingested(v, connection, sequence, payload).1)
  {
    RunKeepsInvariant(capacity, operations);
    RunHighest(capacity, operations, connection);
    IngestAnswers(AfterAll(capacity, operations), connection, sequence, payload);
  }

  /** A registration succeeds exactly when neither number is in use or zero, and starts a session that has
      not authenticated and was offered nothing. */
  lemma RegistrationStarts(v: IngressView, session: u64, connection: u64)
    ensures var (r, after) := Registered(v, session, connection);
            && (r.Ok? <==> session !in v.registry.bySession && connection !in v.registry.byConnection
                           && session != 0 && connection != 0)
            && (r.Ok? ==>
                  && session in after.registry.bySession
                  && var live := after.registry.bySession[session];
                     && live.session == session && live.connection == connection && live.state == ProtocolAdmitted
                     && live.window.highest == None
                     && after.registry == RegistryView(v.registry.bySession[session := live],
                                                       v.registry.byConnection[connection := session]))
            && (r.Err? ==> after == v)
            && after.queue == v.queue && after.emitted == v.emitted
  {
  }
}
