/** Live sessions, the phases in which they may send intents, and the bounded queue of authorized
    intents (crates/session/src/state.rs, registry.rs, ingress.rs). */
module SessionIngress {
  import opened MachineInts
  import opened Replay

  // ----- Session phases -----

  datatype WorldBinding = WorldBinding(account: u64, character: u64, zone: u64)

  datatype SessionState =
    | ProtocolAdmitted
    | Authenticated(account: u64)
    | CharacterBound(binding: WorldBinding)
    | WorldActive(binding: WorldBinding)
    | Closing

  datatype StateError = UnassignedIdentity | InvalidTransition(from: SessionState)

  function AfterAuthenticate(state: SessionState, account: u64): Result<SessionState, StateError> {
    if account == 0 then Err(UnassignedIdentity)
    else if !state.ProtocolAdmitted? then Err(InvalidTransition(state))
    else Ok(Authenticated(account))
  }

  function AfterBind(state: SessionState, character: u64, zone: u64): Result<SessionState, StateError> {
    if character == 0 || zone == 0 then Err(UnassignedIdentity)
    else if !state.Authenticated? then Err(InvalidTransition(state))
    else Ok(CharacterBound(WorldBinding(state.account, character, zone)))
  }

  function AfterActivate(state: SessionState): Result<SessionState, StateError> {
    if !state.CharacterBound? then Err(InvalidTransition(state)) else Ok(WorldActive(state.binding))
  }

  function BindingOf(state: SessionState): Option<WorldBinding> {
    match state
    case CharacterBound(binding) => Some(binding)
    case WorldActive(binding) => Some(binding)
    case _ => None
  }

  // ----- The registry -----

  datatype Payload = Move(axisX: i16, axisY: i16)

  datatype AuthorizedIntent = AuthorizedIntent(session: u64, binding: WorldBinding, sequence: u64, payload: Payload)

  /** A live session; `registration` numbers the registrations (history). */
  datatype LiveSession =
    LiveSession(session: u64, connection: u64, state: SessionState, window: Window, registration: nat)

  datatype RegistryView = RegistryView(bySession: map<u64, LiveSession>, byConnection: map<u64, u64>) {
    function Live(connection: u64): Result<LiveSession, RegistryError> {
      if connection !in byConnection then Err(UnknownConnection(connection))
      else if byConnection[connection] !in bySession then Err(InconsistentIndex(connection, byConnection[connection]))
      else Ok(bySession[byConnection[connection]])
    }

    /** The two indices name each other. */
    ghost predicate Consistent() {
      && (forall c :: c in byConnection ==> byConnection[c] in bySession && bySession[byConnection[c]].connection == c)
      && (forall s :: s in bySession ==> && bySession[s].session == s && bySession[s].connection in byConnection
                                         && byConnection[bySession[s].connection] == s)
    }

    function With(live: LiveSession): RegistryView {
      RegistryView(bySession[live.session := live], byConnection)
    }
  }

  datatype RegistryError =
    | DuplicateSession(session: u64)
    | DuplicateConnection(connection: u64)
    | UnknownConnection(connection: u64)
    | InconsistentIndex(connection: u64, session: u64)
    | SessionStateFailed(state: StateError)

  datatype IntentError =
    | Registry(registry: RegistryError)
    | NotWorldActive(state: SessionState)
    | DuplicateSequence
    | OutOfOrder(highest: Option<u64>)
    | TooOld(highest: Option<u64>)

  datatype IngressError = Sequence(intent: IntentError) | QueueFull

  /** Authorizing observes the sequence even when it is then refused as out of order. */
  function Authorized(live: LiveSession, sequence: u64, payload: Payload)
    : (Result<AuthorizedIntent, IntentError>, LiveSession)
  {
    if !live.state.WorldActive? then (Err(NotWorldActive(live.state)), live)
    else
      var (decision, window) := Observed(live.window, sequence);
      (match decision
       case AcceptedNewHighest => Ok(AuthorizedIntent(live.session, live.state.binding, sequence, payload))
       case AcceptedOutOfOrder => Err(OutOfOrder(live.window.highest))
       case RejectedDuplicate => Err(DuplicateSequence)
       case RejectedTooOld => Err(TooOld(live.window.highest)),
       live.(window := window))
  }

  // ----- The ingress as a value -----

  datatype Emission = Emission(registration: nat, intent: AuthorizedIntent)

  /** The registry, the queue, and as history everything queued or taken so far. */
  datatype IngressView = IngressView(
    registry: RegistryView,
    queue: seq<AuthorizedIntent>,
    capacity: nat,
    registrations: nat,
    emitted: seq<Emission>,
    taken: seq<AuthorizedIntent>)

  datatype Operation =
    | Register(session: u64, connection: u64)
    | Remove(connection: u64)
    | Authenticate(connection: u64, account: u64)
    | BindCharacter(connection: u64, character: u64, zone: u64)
    | ActivateWorld(connection: u64)
    | BeginClosing(connection: u64)
    | IngestMove(connection: u64, sequence: u64, payload: Payload)
    | TakeIntent

  function Registered(v: IngressView, session: u64, connection: u64): (Result<(), RegistryError>, IngressView) {
    var registry := v.registry;
    if session in registry.bySession then (Err(DuplicateSession(session)), v)
    else if connection in registry.byConnection then (Err(DuplicateConnection(connection)), v)
    else if session == 0 || connection == 0 then (Err(SessionStateFailed(UnassignedIdentity)), v)
    else
      (Ok(()), v.(registrations := v.registrations + 1,
                  registry := RegistryView(
                    registry.bySession[session := LiveSession(session, connection, ProtocolAdmitted, Empty(),
                                                              v.registrations)],
                    registry.byConnection[connection := session])))
  }

  function Removed(v: IngressView, connection: u64): (Result<u64, RegistryError>, IngressView) {
    match v.registry.Live(connection)
    case Err(e) => (Err(e), v)
    case Ok(live) =>
      var session := v.registry.byConnection[connection];
      (Ok(session),
       v.(registry := RegistryView(v.registry.bySession - {session}, v.registry.byConnection - {connection})))
  }

  /** Removing a session just registered restores the registry; its registration is still counted. */
  lemma RegisterThenRemove(v: IngressView, session: u64, connection: u64)
    ensures var (r, registered) := Registered(v, session, connection);
            r.Ok? ==>
              Removed(registered, connection) == (Ok(session), v.(registrations := v.registrations + 1))
  {
    var (r, registered) := Registered(v, session, connection);
    if r.Ok? {
      assert registered.registry.bySession - {session} == v.registry.bySession;
      assert registered.registry.byConnection - {connection} == v.registry.byConnection;
    }
  }

  function Restated(v: IngressView, connection: u64, after: SessionState -> Result<SessionState, StateError>)
    : (Result<(), RegistryError>, IngressView)
  {
    match v.registry.Live(connection)
    case Err(e) => (Err(e), v)
    case Ok(live) =>
      match after(live.state)
      case Err(e) => (Err(SessionStateFailed(e)), v)
      case Ok(state) => (Ok(()), v.(registry := v.registry.With(live.(state := state))))
  }

  /** A full queue drops the intent; its sequence stays observed. */
  function Ingested(v: IngressView, connection: u64, sequence: u64, payload: Payload)
    : (Result<(), IngressError>, IngressView)
  {
    match v.registry.Live(connection)
    case Err(e) => (Err(Sequence(Registry(e))), v)
    case Ok(live) =>
      var (outcome, after) := Authorized(live, sequence, payload);
      var observed := v.(registry := v.registry.With(after));
      match outcome
      case Err(e) => (Err(Sequence(e)), observed)
      case Ok(intent) =>
        if |v.queue| >= v.capacity then (Err(QueueFull), observed)
        else (Ok(()),
              observed.(queue := v.queue + [intent], emitted := v.emitted + [Emission(live.registration, intent)]))
  }

  function TakenFrom(v: IngressView): (Option<AuthorizedIntent>, IngressView) {
    if v.queue == [] then (None, v)
    else (Some(v.queue[0]), v.(queue := v.queue[1..], taken := v.taken + [v.queue[0]]))
  }

  function Applied(v: IngressView, operation: Operation): IngressView {
    match operation
    case Register(session, connection) => Registered(v, session, connection).1
    case Remove(connection) => Removed(v, connection).1
    case Authenticate(connection, account) => Restated(v, connection, s => AfterAuthenticate(s, account)).1
    case BindCharacter(connection, character, zone) => Restated(v, connection, s => AfterBind(s, character, zone)).1
    case ActivateWorld(connection) => Restated(v, connection, s => AfterActivate(s)).1
    case BeginClosing(connection) => Restated(v, connection, s => Ok(Closing)).1
    case IngestMove(connection, sequence, payload) => Ingested(v, connection, sequence, payload).1
    case TakeIntent => TakenFrom(v).1
  }

  // ----- What every reachable ingress keeps -----

  function Intents(emitted: seq<Emission>): seq<AuthorizedIntent> {
    seq(|emitted|, i requires 0 <= i < |emitted| => emitted[i].intent)
  }

  /** What was emitted for one registration is ordered, and all of one identity. */
  ghost predicate EmissionsOrdered(emitted: seq<Emission>) {
    forall i, j :: 0 <= i < j < |emitted| && emitted[i].registration == emitted[j].registration ==>
      && emitted[i].intent.sequence < emitted[j].intent.sequence
      && emitted[i].intent.session == emitted[j].intent.session
      && emitted[i].intent.binding == emitted[j].intent.binding
  }

  /** A live session's window is ahead of all it emitted, under the identity it is bound to; a
      session that may still be bound emitted nothing. */
  ghost predicate LiveAhead(live: LiveSession, emitted: seq<Emission>) {
    forall i :: 0 <= i < |emitted| && emitted[i].registration == live.registration ==>
      && emitted[i].intent.session == live.session
      && live.window.highest.Some? && emitted[i].intent.sequence <= live.window.highest.value
      && (live.state == Closing || live.state == WorldActive(emitted[i].intent.binding))
  }

  /** Registrations are numbered apart, and each live session is ahead of what it emitted. */
  ghost predicate SessionsAhead(sessions: map<u64, LiveSession>, registrations: nat, emitted: seq<Emission>) {
    && (forall s :: s in sessions ==> sessions[s].registration < registrations && LiveAhead(sessions[s], emitted))
    && (forall s, t :: s in sessions && t in sessions && s != t ==>
          sessions[s].registration != sessions[t].registration)
  }

  ghost predicate QueueMatches(v: IngressView) {
    |v.queue| <= v.capacity && Intents(v.emitted) == v.taken + v.queue
  }

  ghost predicate IngressInvariant(v: IngressView) {
    && v.registry.Consistent()
    && QueueMatches(v)
    && EmissionsOrdered(v.emitted)
    && (forall i :: 0 <= i < |v.emitted| ==> v.emitted[i].registration < v.registrations)
    && SessionsAhead(v.registry.bySession, v.registrations, v.emitted)
  }

  function Fresh(capacity: nat): IngressView {
    IngressView(RegistryView(map[], map[]), [], capacity, 0, [], [])
  }

  lemma RestatedKeepsInvariant(v: IngressView, connection: u64, after: SessionState -> Result<SessionState, StateError>)
    requires IngressInvariant(v)
    requires forall s :: after(s).Ok? ==> after(s).value == Closing || !(s.WorldActive? || s.Closing?)
    ensures IngressInvariant(Restated(v, connection, after).1)
  {
    var w := Restated(v, connection, after).1;
    if v.registry.Live(connection).Ok? && after(v.registry.Live(connection).value.state).Ok? {
      var live := v.registry.Live(connection).value;
      assert LiveAhead(live, v.emitted);
      assert LiveAhead(w.registry.bySession[live.session], w.emitted);
    }
  }

  /** Observing moves the window forward only, and an authorized intent is ahead of all before it. */
  lemma AuthorizedIsAhead(live: LiveSession, sequence: u64, payload: Payload, emitted: seq<Emission>)
    requires LiveAhead(live, emitted)
    ensures var (outcome, after) := Authorized(live, sequence, payload);
            && LiveAhead(after, emitted)
            && (outcome.Ok? ==>
                  && live.state == WorldActive(outcome.value.binding)
                  && outcome.value.session == live.session && outcome.value.sequence == sequence
                  && after.window.highest == Some(sequence)
                  && (forall i :: 0 <= i < |emitted| && emitted[i].registration == live.registration ==>
                        emitted[i].intent.sequence < sequence && emitted[i].intent.binding == outcome.value.binding
                        && emitted[i].intent.session == live.session))
  {
  }

  lemma EmissionKeepsOrder(live: LiveSession, intent: AuthorizedIntent, emitted: seq<Emission>)
    requires EmissionsOrdered(emitted)
    requires forall i :: 0 <= i < |emitted| && emitted[i].registration == live.registration ==>
               emitted[i].intent.sequence < intent.sequence && emitted[i].intent.binding == intent.binding
               && emitted[i].intent.session == intent.session
    ensures EmissionsOrdered(emitted + [Emission(live.registration, intent)])
  {
  }

  lemma EmissionKeepsSessionsAhead(sessions: map<u64, LiveSession>, registrations: nat, emitted: seq<Emission>,
                                   live: LiveSession, intent: AuthorizedIntent)
    requires SessionsAhead(sessions, registrations, emitted)
    requires live.session in sessions && sessions[live.session] == live
    requires intent.session == live.session && live.state == WorldActive(intent.binding)
    requires live.window.highest == Some(intent.sequence)
    ensures SessionsAhead(sessions, registrations, emitted + [Emission(live.registration, intent)])
  {
    var more := emitted + [Emission(live.registration, intent)];
    forall s | s in sessions
      ensures LiveAhead(sessions[s], more)
    {
      assert LiveAhead(sessions[s], emitted);
    }
  }

  lemma ObservingKeepsSessionsAhead(registry: RegistryView, registrations: nat, emitted: seq<Emission>,
                                    live: LiveSession, sequence: u64, payload: Payload)
    requires registry.Consistent() && SessionsAhead(registry.bySession, registrations, emitted)
    requires live.session in registry.bySession && registry.bySession[live.session] == live
    ensures var after := registry.With(Authorized(live, sequence, payload).1);
            after.Consistent() && SessionsAhead(after.bySession, registrations, emitted)
  {
    AuthorizedIsAhead(live, sequence, payload, emitted);
  }

  lemma IngestKeepsInvariant(v: IngressView, connection: u64, sequence: u64, payload: Payload)
    requires IngressInvariant(v)
    ensures IngressInvariant(Ingested(v, connection, sequence, payload).1)
  {
    if v.registry.Live(connection).Ok? {
      var live := v.registry.Live(connection).value;
      var (outcome, after) := Authorized(live, sequence, payload);
      ObservingKeepsSessionsAhead(v.registry, v.registrations, v.emitted, live, sequence, payload);
      if outcome.Ok? && |v.queue| < v.capacity {
        EmittingKeepsInvariant(v, live, sequence, payload);
      }
    }
  }

  lemma EmittingKeepsInvariant(v: IngressView, live: LiveSession, sequence: u64, payload: Payload)
    requires IngressInvariant(v) && |v.queue| < v.capacity
    requires live.session in v.registry.bySession && v.registry.bySession[live.session] == live
    requires Authorized(live, sequence, payload).0.Ok?
    ensures var (outcome, after) := Authorized(live, sequence, payload);
            IngressInvariant(v.(registry := v.registry.With(after), queue := v.queue + [outcome.value],
                                emitted := v.emitted + [Emission(live.registration, outcome.value)]))
  {
    var (outcome, after) := Authorized(live, sequence, payload);
    assert LiveAhead(live, v.emitted);
    AuthorizedIsAhead(live, sequence, payload, v.emitted);
    ObservingKeepsSessionsAhead(v.registry, v.registrations, v.emitted, live, sequence, payload);
    EmissionKeepsOrder(live, outcome.value, v.emitted);
    EmissionKeepsSessionsAhead(v.registry.With(after).bySession, v.registrations, v.emitted, after, outcome.value);
    EmissionKeepsQueue(v.emitted, Emission(live.registration, outcome.value), v.taken, v.queue);
  }

  lemma EmissionKeepsQueue(emitted: seq<Emission>, emission: Emission, taken: seq<AuthorizedIntent>,
                           queue: seq<AuthorizedIntent>)
    requires Intents(emitted) == taken + queue
    ensures Intents(emitted + [emission]) == taken + (queue + [emission.intent])
  {
    assert Intents(emitted + [emission]) == Intents(emitted) + [emission.intent];
  }

  lemma RegisterKeepsInvariant(v: IngressView, session: u64, connection: u64)
    requires IngressInvariant(v)
    ensures IngressInvariant(Registered(v, session, connection).1)
  {
    var w := Registered(v, session, connection).1;
    forall s | s in w.registry.bySession
      ensures LiveAhead(w.registry.bySession[s], w.emitted)
    {
      assert s in v.registry.bySession ==> LiveAhead(v.registry.bySession[s], v.emitted);
    }
  }

  lemma RemoveKeepsInvariant(v: IngressView, connection: u64)
    requires IngressInvariant(v)
    ensures IngressInvariant(Removed(v, connection).1)
  {
  }

  lemma TakeKeepsInvariant(v: IngressView)
    requires IngressInvariant(v)
    ensures IngressInvariant(TakenFrom(v).1)
  {
    if v.queue != [] {
      assert v.taken + v.queue == v.taken + [v.queue[0]] + v.queue[1..];
    }
  }

  lemma AppliedKeepsInvariant(v: IngressView, operation: Operation)
    requires IngressInvariant(v)
    ensures IngressInvariant(Applied(v, operation))
  {
    match operation
    case Register(session, connection) => RegisterKeepsInvariant(v, session, connection);
    case Remove(connection) => RemoveKeepsInvariant(v, connection);
    case IngestMove(connection, sequence, payload) => IngestKeepsInvariant(v, connection, sequence, payload);
    case TakeIntent => TakeKeepsInvariant(v);
    case _ => RestatingKeepsInvariant(v, operation);
  }

  lemma RestatingKeepsInvariant(v: IngressView, operation: Operation)
    requires IngressInvariant(v)
    requires operation.Authenticate? || operation.BindCharacter? || operation.ActivateWorld? || operation.BeginClosing?
    ensures IngressInvariant(Applied(v, operation))
  {
    match operation
    case Authenticate(connection, account) => RestatedKeepsInvariant(v, connection, s => AfterAuthenticate(s, account));
    case BindCharacter(connection, character, zone) =>
      RestatedKeepsInvariant(v, connection, s => AfterBind(s, character, zone));
    case ActivateWorld(connection) => RestatedKeepsInvariant(v, connection, s => AfterActivate(s));
    case BeginClosing(connection) => RestatedKeepsInvariant(v, connection, s => Ok(Closing));
  }

  // ----- Runs -----

  function AfterAll(capacity: nat, operations: seq<Operation>): IngressView {
    if operations == [] then Fresh(capacity)
    else Applied(AfterAll(capacity, operations[..|operations| - 1]), operations[|operations| - 1])
  }

  lemma {:induction false} RunKeepsInvariant(capacity: nat, operations: seq<Operation>)
    ensures IngressInvariant(AfterAll(capacity, operations))
    decreases |operations|
  {
    if operations != [] {
      RunKeepsInvariant(capacity, operations[..|operations| - 1]);
      AppliedKeepsInvariant(AfterAll(capacity, operations[..|operations| - 1]), operations[|operations| - 1]);
    }
  }

  /** Whatever arrives in whatever order: the intents of one registration reach the queue in
      strictly increasing sequence and under one identity, and leave it in the same order. */
  lemma EmittedInOrder(capacity: nat, operations: seq<Operation>, i: nat, j: nat)
    requires i < j < |AfterAll(capacity, operations).emitted|
    requires AfterAll(capacity, operations).emitted[i].registration
               == AfterAll(capacity, operations).emitted[j].registration
    ensures var v := AfterAll(capacity, operations);
            var (a, b) := (v.emitted[i].intent, v.emitted[j].intent);
            && a.sequence < b.sequence && a.session == b.session && a.binding == b.binding
            && |v.taken + v.queue| == |v.emitted| && |v.queue| <= capacity
            && (v.taken + v.queue)[i] == a && (v.taken + v.queue)[j] == b
  {
    RunKeepsInvariant(capacity, operations);
    KeepsCapacity(capacity, operations);
    var v := AfterAll(capacity, operations);
    assert Intents(v.emitted)[i] == v.emitted[i].intent && Intents(v.emitted)[j] == v.emitted[j].intent;
  }

  lemma {:induction false} KeepsCapacity(capacity: nat, operations: seq<Operation>)
    ensures AfterAll(capacity, operations).capacity == capacity
    decreases |operations|
  {
    if operations != [] {
      KeepsCapacity(capacity, operations[..|operations| - 1]);
    }
  }

  /** Only a move that finds its session active in the world, with a new highest sequence, is
      emitted, and it carries the identity bound to that session. */
  lemma EmittedOnlyWhileActive(v: IngressView, operation: Operation)
    requires IngressInvariant(v) && Applied(v, operation).emitted != v.emitted
    ensures operation.IngestMove? && v.registry.Live(operation.connection).Ok?
    ensures var live := v.registry.Live(operation.connection).value;
            && live.state.WorldActive? && live.connection == operation.connection
            && Applied(v, operation).emitted == v.emitted + [Emission(live.registration,
                 AuthorizedIntent(live.session, live.state.binding, operation.sequence, operation.payload))]
            && (live.window.highest.Some? ==> live.window.highest.value < operation.sequence)
  {
  }

  /** The two indices never disagree, so looking up a connection fails only when it is unknown. */
  lemma IndexNeverInconsistent(capacity: nat, operations: seq<Operation>, connection: u64)
    ensures var found := AfterAll(capacity, operations).registry.Live(connection);
            found.Err? ==> found.error == UnknownConnection(connection)
    ensures var found := AfterAll(capacity, operations).registry.Live(connection);
            found.Ok? ==> found.value.connection == connection
  {
    RunKeepsInvariant(capacity, operations);
  }

  // ----- The ingress -----

  class SessionIntentIngress {
    var bySession: map<u64, LiveSession>
    var byConnection: map<u64, u64>
    var queue: seq<AuthorizedIntent>
    const capacity: nat
    var registrations: nat
    ghost var emitted: seq<Emission>
    ghost var taken: seq<AuthorizedIntent>

    function Index(): RegistryView
      reads this
    {
      RegistryView(bySession, byConnection)
    }

    ghost function View(): IngressView
      reads this
    {
      IngressView(Index(), queue, capacity, registrations, emitted, taken)
    }

    ghost predicate Valid()
      reads this
    {
      IngressInvariant(View())
    }

    constructor Bounded(capacity: nat)
      requires capacity > 0
      ensures Valid() && View() == Fresh(capacity)
    {
      this.capacity := capacity;
      bySession, byConnection, queue, registrations := map[], map[], [], 0;
      emitted, taken := [], [];
    }

    method IsWorldActiveSession(session: u64) returns (active: bool)
      ensures active <==> session in bySession && bySession[session].state.WorldActive?
    {
      active := session in bySession && bySession[session].state.WorldActive?;
    }

    method LiveForConnection(connection: u64) returns (r: Result<LiveSession, RegistryError>)
      requires Valid()
      ensures r == Index().Live(connection)
      ensures r.Ok? <==> connection in byConnection
      ensures r.Err? ==> r.error == UnknownConnection(connection)
    {
      if connection !in byConnection {
        return Err(UnknownConnection(connection));
      }
      r := Ok(bySession[byConnection[connection]]);
    }

    method WorldBindingForConnection(connection: u64) returns (r: Result<Option<WorldBinding>, RegistryError>)
      requires Valid()
      ensures r.Ok? <==> connection in byConnection
      ensures r.Ok? ==> r.value == BindingOf(bySession[byConnection[connection]].state)
    {
      var live := LiveForConnection(connection);
      r := match live case Ok(found) => Ok(BindingOf(found.state)) case Err(e) => Err(e);
    }

    method Register(session: u64, connection: u64) returns (r: Result<(), RegistryError>)
      requires Valid()
      modifies this
      ensures Valid() && (r, View()) == Registered(old(View()), session, connection)
    {
      RegisterKeepsInvariant(View(), session, connection);
      if session in bySession {
        return Err(DuplicateSession(session));
      }
      if connection in byConnection {
        return Err(DuplicateConnection(connection));
      }
      if session == 0 || connection == 0 {
        return Err(SessionStateFailed(UnassignedIdentity));
      }
      bySession := bySession[session := LiveSession(session, connection, ProtocolAdmitted, Empty(), registrations)];
      byConnection := byConnection[connection := session];
      registrations := registrations + 1;
      r := Ok(());
    }

    method RemoveByConnection(connection: u64) returns (r: Result<u64, RegistryError>)
      requires Valid()
      modifies this
      ensures Valid() && (r, View()) == Removed(old(View()), connection)
    {
      RemoveKeepsInvariant(View(), connection);
      if connection !in byConnection {
        return Err(UnknownConnection(connection));
      }
      var session := byConnection[connection];
      byConnection := byConnection - {connection};
      bySession := bySession - {session};
      r := Ok(session);
    }

    ghost function PhaseOf(connection: u64): SessionState
      reads this
    {
      if connection in byConnection && byConnection[connection] in bySession
      then bySession[byConnection[connection]].state else Closing
    }

    /** The outcome of a phase change and the phase it leaves. */
    ghost predicate Moved(connection: u64, outcome: Result<SessionState, StateError>, r: Result<(), RegistryError>)
      reads this
    {
      if outcome.Ok? then r == Ok(()) && PhaseOf(connection) == outcome.value
      else r == Err(SessionStateFailed(outcome.error))
    }

    /** The indices are untouched; only the state of one session may differ. */
    twostate predicate OnlyStates()
      reads this
    {
      && byConnection == old(byConnection) && bySession.Keys == old(bySession).Keys && queue == old(queue)
      && forall s :: s in bySession ==> bySession[s] == old(bySession)[s].(state := bySession[s].state)
    }

    /** One session moves to another phase, or nothing changes. */
    method Restate(connection: u64, after: SessionState -> Result<SessionState, StateError>)
      returns (r: Result<(), RegistryError>)
      requires Valid()
      requires forall s :: after(s).Ok? ==> after(s).value == Closing || !(s.WorldActive? || s.Closing?)
      modifies this
      ensures Valid() && (r, View()) == Restated(old(View()), connection, after) && OnlyStates()
      ensures connection in byConnection ==> Moved(connection, after(old(PhaseOf(connection))), r)
    {
      RestatedKeepsInvariant(View(), connection, after);
      var found := LiveForConnection(connection);
      if found.Err? {
        return Err(found.error);
      }
      var live := found.value;
      var state := after(live.state);
      if state.Err? {
        return Err(SessionStateFailed(state.error));
      }
      bySession := bySession[live.session := live.(state := state.value)];
      r := Ok(());
    }

    method Authenticate(connection: u64, account: u64) returns (r: Result<(), RegistryError>)
      requires Valid()
      modifies this
      ensures Valid() && View() == Applied(old(View()), Operation.Authenticate(connection, account)) && OnlyStates()
      ensures connection in byConnection ==> Moved(connection, AfterAuthenticate(old(PhaseOf(connection)), account), r)
    {
      r := Restate(connection, s => AfterAuthenticate(s, account));
    }

    method BindCharacter(connection: u64, character: u64, zone: u64) returns (r: Result<(), RegistryError>)
      requires Valid()
      modifies this
      ensures Valid() && View() == Applied(old(View()), Operation.BindCharacter(connection, character, zone))
                && OnlyStates()
      ensures connection in byConnection ==> Moved(connection, AfterBind(old(PhaseOf(connection)), character, zone), r)
    {
      r := Restate(connection, s => AfterBind(s, character, zone));
    }

    method ActivateWorld(connection: u64) returns (r: Result<(), RegistryError>)
      requires Valid()
      modifies this
      ensures Valid() && View() == Applied(old(View()), Operation.ActivateWorld(connection)) && OnlyStates()
      ensures connection in byConnection ==> Moved(connection, AfterActivate(old(PhaseOf(connection))), r)
    {
      r := Restate(connection, s => AfterActivate(s));
    }

    method BeginClosing(connection: u64) returns (r: Result<(), RegistryError>)
      requires Valid()
      modifies this
      ensures Valid() && View() == Applied(old(View()), Operation.BeginClosing(connection)) && OnlyStates()
      ensures connection in byConnection ==> Moved(connection, Ok(Closing), r)
      ensures r.Ok? <==> connection in old(byConnection)
    {
      r := Restate(connection, s => Ok(Closing));
    }

    method TryIngestMove(connection: u64, sequence: u64, axisX: i16, axisY: i16) returns (r: Result<(), IngressError>)
      requires Valid()
      modifies this
      ensures Valid() && (r, View()) == Ingested(old(View()), connection, sequence, Move(axisX, axisY))
    {
      IngestKeepsInvariant(View(), connection, sequence, Move(axisX, axisY));
      var found := LiveForConnection(connection);
      if found.Err? {
        return Err(Sequence(Registry(found.error)));
      }
      var live := found.value;
      var (outcome, after) := Authorized(live, sequence, Move(axisX, axisY));
      bySession := bySession[live.session := after];
      if outcome.Err? {
        return Err(Sequence(outcome.error));
      }
      if |queue| >= capacity {
        return Err(QueueFull);
      }
      queue := queue + [outcome.value];
      emitted := emitted + [Emission(live.registration, outcome.value)];
      r := Ok(());
    }

    method TryReceive() returns (r: Option<AuthorizedIntent>)
      requires Valid()
      modifies this
      ensures Valid() && (r, View()) == TakenFrom(old(View()))
    {
      TakeKeepsInvariant(View());
      if queue == [] {
        return None;
      }
      r := Some(queue[0]);
      taken := taken + [queue[0]];
      queue := queue[1..];
    }
  }
}
