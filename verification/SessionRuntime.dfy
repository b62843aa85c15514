/** The session runtime's event handlers over the session ingress, the frontier barrier, the
    delivery tracker and the frontier (apps/world-server/src/session_runtime.rs). */
module SessionRuntimes {
  import opened MachineInts
  import opened SessionIngress
  import opened FrontierSync
  import opened FrontierDelivery
  import opened FrontierBarrier
  import Frontier
  import FrontierReveal
  import FrontierRuntimes
  import Lattice
  import Movement
  import P = PresentationDelivery

  datatype Failure =
    | ReliableTaken(connection: u64)
    | RealtimeTaken(connection: u64)
    | SessionRefused(registry: RegistryError)
    | SessionMapped(session: u64)
    | BarrierRefused(sync: SyncError)
    | CharacterRouted(character: u64)
    | WorldRefused
    | RemovedOther(removed: u64)
    | RevealFailed(refusal: FrontierRuntimes.RuntimeError)

  datatype AckEffect =
    | NoConnection
    | Resumed(revision: u64)
    | Isolated
    | Repeated
    | Stale
    | FailClosed
    | AckWorldRefused
    | ContractsMissing   // the scheduler does not hold a revealed quadrant's contracts
    | DeliveredUnsynced   // the two consistency checks of presentation delivery
    | DeliveredDiverged

  datatype DeliveryEffect =
    | NoSender
    | Resent(connection: u64, revision: u64, attempt: u32)
    | SendFailed(connection: u64)
    | RevisionDiverged(connection: u64)
    | TimedOut(connection: u64)

  /** What the command queue of a zone answers. */
  datatype ZoneQueue = Room | Full | Closed

  datatype RouterError = UnknownZone(zone: u64) | AxesRefused(axisX: i16, axisY: i16) | ZoneClosed(zone: u64)

  /** The router hands an intent to its zone, unless that is full. */
  function RoutedTo(zones: map<u64, ZoneQueue>, intent: AuthorizedIntent): Result<Option<AuthorizedIntent>, RouterError>
  {
    var zone := intent.binding.zone;
    var Move(axisX, axisY) := intent.payload;
    if zone !in zones then Err(UnknownZone(zone))
    else if Movement.FromAxes(axisX, axisY).None? then Err(AxesRefused(axisX, axisY))
    else
      match zones[zone]
      case Room => Ok(Some(intent))
      case Full => Ok(None)
      case Closed => Err(ZoneClosed(zone))
  }

  /** An intent reaches its zone exactly when the zone is known, neither axis is the one value without an
      opposite, and the zone has room; it is dropped only when the zone is full. */
  lemma RoutedIff(zones: map<u64, ZoneQueue>, intent: AuthorizedIntent)
    ensures var r := RoutedTo(zones, intent);
            var (zone, axes) := (intent.binding.zone, intent.payload);
            && (r == Ok(Some(intent)) <==> r.Ok? && r.value.Some?)
            && (r == Ok(Some(intent)) <==>
                  zone in zones && zones[zone] == Room && axes.axisX > -0x8000 && axes.axisY > -0x8000)
            && (r == Ok(None) <==>
                  zone in zones && zones[zone] == Full && axes.axisX > -0x8000 && axes.axisY > -0x8000)
            && (r == Err(UnknownZone(zone)) <==> zone !in zones)
            && (r == Err(AxesRefused(axes.axisX, axes.axisY)) <==>
                  zone in zones && (axes.axisX == -0x8000 || axes.axisY == -0x8000))
  {
  }

  /** The identity the development environment gives every session. */
  const DEVELOPMENT_ACCOUNT: u64 := 1
  const DEVELOPMENT_CHARACTER: u64 := 1

  class SessionRuntime {
    const ingress: SessionIntentIngress
    const sync: FrontierSyncRegistry
    const delivery: FrontierDeliveryTracker
    const frontier: FrontierRuntimes.FrontierRuntime
    const autoAdmit: bool
    const zone: u64
    var reliable: set<u64>
    var realtime: set<u64>
    var connectionByCharacter: map<u64, u64>
    var connectionBySession: map<u64, u64>

    ghost function View(): Barrier
      reads this, sync, delivery, frontier.state
    {
      Barrier(frontier.state.revision, reliable, sync.byConnection, delivery.pending)
    }

    /** The session mapping agrees with the registry, and what can be sent to is registered. */
    ghost predicate RoutesAgree()
      reads this, ingress
    {
      && reliable <= ingress.byConnection.Keys
      && forall s :: s in connectionBySession && s in ingress.bySession ==>
           connectionBySession[s] == ingress.bySession[s].connection
    }

    ghost predicate Valid()
      reads this, ingress, sync, delivery, frontier.state, frontier.preparations
    {
      && ingress.Valid() && delivery.Valid() && frontier.Valid()
      && BarrierInvariant(delivery.policy, View())
      && RoutesAgree()
    }

    constructor (frontier: FrontierRuntimes.FrontierRuntime, policy: Policy, capacity: nat, autoAdmit: bool, zone: u64)
      requires frontier.Valid() && capacity > 0
      ensures Valid() && this.frontier == frontier && delivery.policy == policy
      ensures View() == Barrier(frontier.state.revision, {}, map[], map[])
    {
      this.frontier, this.autoAdmit, this.zone := frontier, autoAdmit, zone;
      ingress := new SessionIntentIngress.Bounded(capacity);
      sync := new FrontierSyncRegistry();
      delivery := new FrontierDeliveryTracker(policy);
      reliable, realtime, connectionByCharacter, connectionBySession := {}, {}, map[], map[];
      new;
      NobodyBehindBarrier(policy, frontier.state.revision);
    }

    // ----- Admission -----

    method RemoveBridge(connection: u64)
      modifies this`realtime, this`connectionByCharacter
      ensures realtime == old(realtime) - {connection}
    {
      realtime := realtime - {connection};
      connectionByCharacter :=
        map c | c in connectionByCharacter && connectionByCharacter[c] != connection :: connectionByCharacter[c];
    }

    /** The routes agree but for the sender of a connection that is being admitted. */
    ghost predicate RoutesAgreeBut(connection: u64)
      reads this, ingress
    {
      && reliable - {connection} <= ingress.byConnection.Keys
      && forall s :: s in connectionBySession && s in ingress.bySession ==>
           connectionBySession[s] == ingress.bySession[s].connection
    }

    /** Registry and queue are as they were. */
    twostate predicate SameSessions()
      reads this, ingress
    {
      && ingress.bySession == old(ingress.bySession) && ingress.byConnection == old(ingress.byConnection)
      && ingress.queue == old(ingress.queue)
    }

    /** Neither number is known to the registry, nor the session to the mapping. */
    ghost predicate SessionFree(connection: u64, session: u64)
      reads this, ingress
    {
      && connection != 0 && connection !in ingress.byConnection
      && session != 0 && session !in ingress.bySession && session !in connectionBySession
    }

    /** No route of the connection is taken, and the session is free. */
    ghost predicate RoutesFree(connection: u64, session: u64)
      reads this, ingress
    {
      connection !in reliable && connection !in realtime && SessionFree(connection, session)
    }

    /** Registers the session and maps it to its connection, or leaves registry and mapping as they were. */
    method RegisterSession(connection: u64, session: u64) returns (r: Result<(), Failure>)
      requires ingress.Valid() && RoutesAgreeBut(connection)
      modifies this`connectionBySession, ingress
      ensures ingress.Valid() && RoutesAgreeBut(connection)
      ensures r.Ok? <==> old(SessionFree(connection, session))
      ensures r.Ok? ==> && connection in ingress.byConnection
                        && session in ingress.bySession && ingress.bySession[session].connection == connection
                        && ingress.bySession[session].state == ProtocolAdmitted
                        && connectionBySession == old(connectionBySession)[session := connection]
      ensures r.Err? ==> connectionBySession == old(connectionBySession) && SameSessions()
    {
      RegisterThenRemove(ingress.View(), session, connection);
      var registered := ingress.Register(session, connection);
      if registered.Err? {
        return Err(SessionRefused(registered.error));
      }
      if session in connectionBySession {
        var removed := ingress.RemoveByConnection(connection);
        return Err(SessionMapped(session));
      }
      connectionBySession := connectionBySession[session := connection];
      r := Ok(());
    }

    /** Senders, snapshot routes, session mapping and registry are as they were. */
    twostate predicate RoutesUndone()
      reads this, ingress
    {
      && reliable == old(reliable) && realtime == old(realtime)
      && connectionBySession == old(connectionBySession) && SameSessions()
    }

    /** Registers the routes and the session, undoing what it did when a step refuses. */
    method RegisterRoutes(connection: u64, session: u64) returns (r: Result<(), Failure>)
      requires ingress.Valid() && RoutesAgree()
      modifies this, ingress
      ensures ingress.Valid() && RoutesAgree()
      ensures r.Ok? <==> old(RoutesFree(connection, session))
      ensures r.Ok? ==> reliable == old(reliable) + {connection}
                        && connectionByCharacter == old(connectionByCharacter)
                        && session in ingress.bySession && ingress.bySession[session].connection == connection
                        && ingress.bySession[session].state == ProtocolAdmitted && connection in realtime
      ensures r.Err? ==> RoutesUndone()
    {
      if connection in reliable {
        return Err(ReliableTaken(connection));
      }
      reliable := reliable + {connection};
      r := RegisterSnapshots(connection, session);
      if r.Err? {
        reliable := reliable - {connection};
      }
    }

    /** Registers the snapshot route and the session, behind a sender already registered. */
    method RegisterSnapshots(connection: u64, session: u64) returns (r: Result<(), Failure>)
      requires ingress.Valid() && RoutesAgreeBut(connection)
      modifies this`realtime, this`connectionByCharacter, this`connectionBySession, ingress
      ensures ingress.Valid() && RoutesAgreeBut(connection)
      ensures r.Ok? <==> connection !in old(realtime) && old(SessionFree(connection, session))
      ensures r.Ok? ==> && connection in ingress.byConnection && connection in realtime
                        && connectionByCharacter == old(connectionByCharacter)
                        && session in ingress.bySession && ingress.bySession[session].connection == connection
                        && ingress.bySession[session].state == ProtocolAdmitted
      ensures r.Err? ==> realtime == old(realtime) && connectionBySession == old(connectionBySession) && SameSessions()
    {
      if connection in realtime {
        return Err(RealtimeTaken(connection));
      }
      realtime := realtime + {connection};
      r := RegisterSession(connection, session);
      if r.Err? {
        RemoveBridge(connection);
      }
    }

    /** Opens the barrier's account for an admitted connection: pending, and tracked. */
    method RegisterBarrier(connection: u64, now: nat) returns (r: Result<(), Failure>)
      requires Unregistered(connection)
      modifies sync, delivery
      ensures r.Ok? && delivery.Valid()
      ensures sync.byConnection == old(sync.byConnection)[connection := Pending(frontier.state.revision)]
      ensures delivery.pending
                == old(delivery.pending)[connection := NewDelivery(delivery.policy, frontier.state.revision, now)]
    {
      var registered := sync.RegisterPending(connection, frontier.state.revision);
      if registered.Err? {
        // no connection without a reliable sender has a barrier, and a revision is never zero
        assert false;
      }
      delivery.Track(connection, frontier.state.revision, now);
      r := Ok(());
    }

    ghost predicate Unregistered(connection: u64)
      reads sync, delivery, frontier.state
    {
      connection !in sync.byConnection && frontier.state.revision != 0 && delivery.Valid()
    }

    function Identity(): WorldBinding {
      WorldBinding(DEVELOPMENT_ACCOUNT, DEVELOPMENT_CHARACTER, zone)
    }

    method AssignIdentity(connection: u64) returns (r: Result<(), Failure>)
      requires ingress.Valid() && RoutesAgree()
      requires connection in ingress.byConnection && ingress.PhaseOf(connection) == ProtocolAdmitted
      modifies ingress
      ensures ingress.Valid() && RoutesAgree() && ingress.OnlyStates()
      ensures r.Ok? <==> zone != 0
      ensures r.Ok? ==> ingress.PhaseOf(connection) == CharacterBound(Identity())
    {
      var authenticated := ingress.Authenticate(connection, DEVELOPMENT_ACCOUNT);
      var bound := ingress.BindCharacter(connection, DEVELOPMENT_CHARACTER, zone);
      r := if bound.Err? then Err(SessionRefused(bound.error)) else Ok(());
    }

    /** Gives an admitted development session its identity and its character in the world. */
    method AutoAdmit(connection: u64, spawned: bool) returns (r: Result<(), Failure>)
      requires ingress.Valid() && RoutesAgree()
      requires connection in ingress.byConnection && ingress.PhaseOf(connection) == ProtocolAdmitted
      modifies ingress, this`connectionByCharacter
      ensures ingress.Valid() && RoutesAgree() && ingress.OnlyStates()
      ensures r.Ok? <==> zone != 0 && DEVELOPMENT_CHARACTER !in old(connectionByCharacter) && spawned
      ensures r.Ok? ==> ingress.PhaseOf(connection) == WorldActive(Identity())
    {
      r := AssignIdentity(connection);
      if r.Err? {
        return;
      }
      if DEVELOPMENT_CHARACTER in connectionByCharacter {
        return Err(CharacterRouted(DEVELOPMENT_CHARACTER));
      }
      connectionByCharacter := connectionByCharacter[DEVELOPMENT_CHARACTER := connection];
      if !spawned {
        return Err(WorldRefused);
      }
      var activated := ingress.ActivateWorld(connection);
      if activated.Err? {
        // the branch that would roll the spawn back: a session just bound can always be activated
        assert false;
      }
      r := Ok(());
    }

    method AdmitBehindBarrier(connection: u64, session: u64, now: nat) returns (r: Result<(), Failure>)
      requires Valid()
      modifies this, ingress, sync, delivery
      ensures Valid()
      ensures r.Ok? <==> old(RoutesFree(connection, session))
      ensures r.Ok? ==> connection in ingress.byConnection && ingress.PhaseOf(connection) == ProtocolAdmitted
                        && connectionByCharacter == old(connectionByCharacter)
      ensures if r.Ok? then BarrierStep(delivery.policy, old(View()), BarrierEvent.Admit(connection, now), View())
              else View() == old(View()) && RoutesUndone()
    {
      ghost var before := View();
      r := RegisterRoutes(connection, session);
      if r.Ok? {
        r := RegisterBarrier(connection, now);
        StepKeepsBarrier(delivery.policy, before, BarrierEvent.Admit(connection, now), View());
      }
    }

    /** Admission: routes, session, barrier, and in development the character.  A connection that is not
        admitted leaves no trace; an admitted one starts behind the barrier, even when its character is
        refused. */
    method Admit(connection: u64, session: u64, now: nat, spawned: bool) returns (r: Result<(), Failure>)
      requires Valid()
      modifies this, ingress, sync, delivery
      ensures Valid()
      ensures if old(RoutesFree(connection, session))
              then BarrierStep(delivery.policy, old(View()), BarrierEvent.Admit(connection, now), View())
              else View() == old(View()) && RoutesUndone()
      ensures r.Ok? <==> old(RoutesFree(connection, session)) && (autoAdmit ==> old(CharacterFree()) && spawned)
      ensures r.Ok? ==> && connection in ingress.byConnection
                        && ingress.PhaseOf(connection)
                             == if autoAdmit then WorldActive(Identity()) else ProtocolAdmitted
    {
      r := AdmitBehindBarrier(connection, session, now);
      if r.Ok? && autoAdmit {
        r := AdmitCharacter(connection, spawned);
      }
    }

    /** The development character has a zone to enter, and no connection yet. */
    predicate CharacterFree()
      reads this
    {
      zone != 0 && DEVELOPMENT_CHARACTER !in connectionByCharacter
    }

    /** Identity and character touch neither the barrier nor the routes. */
    method AdmitCharacter(connection: u64, spawned: bool) returns (r: Result<(), Failure>)
      requires Valid() && connection in ingress.byConnection && ingress.PhaseOf(connection) == ProtocolAdmitted
      modifies ingress, this`connectionByCharacter
      ensures Valid() && View() == old(View())
      ensures r.Ok? <==> old(CharacterFree()) && spawned
      ensures r.Ok? ==> connection in ingress.byConnection && ingress.PhaseOf(connection) == WorldActive(Identity())
    {
      r := AutoAdmit(connection, spawned);
    }

    // ----- Movement intents -----

    method Ingest(connection: u64, sequence: u64, axisX: i16, axisY: i16) returns (r: Result<(), IngressError>)
      requires ingress.Valid() && RoutesAgree()
      modifies ingress
      ensures ingress.Valid() && RoutesAgree()
      ensures (r, ingress.View()) == Ingested(old(ingress.View()), connection, sequence, Move(axisX, axisY))
    {
      r := ingress.TryIngestMove(connection, sequence, axisX, axisY);
    }

    /** A move is ingested only from a connection past the barrier. */
    method MoveIntent(connection: u64, sequence: u64, axisX: i16, axisY: i16)
      returns (r: Option<Result<(), IngressError>>)
      requires Valid()
      modifies ingress
      ensures Valid() && View() == old(View())
      ensures r.Some? <==> View().SyncedNow(connection)
      ensures r.None? ==> ingress.View() == old(ingress.View())
      ensures r.Some? ==>
                (r.value, ingress.View()) == Ingested(old(ingress.View()), connection, sequence, Move(axisX, axisY))
    {
      var synced := sync.IsSynced(connection);
      if !synced {
        return None;
      }
      var ingested := Ingest(connection, sequence, axisX, axisY);
      r := Some(ingested);
    }

    /** The intent's session is active in the world, and its connection has acknowledged the revision that
        is authoritative now. */
    ghost predicate Passes(intent: AuthorizedIntent)
      reads this, ingress, sync, delivery, frontier.state
    {
      && intent.session in ingress.bySession && ingress.bySession[intent.session].state.WorldActive?
      && intent.session in connectionBySession && View().SyncedNow(connectionBySession[intent.session])
    }

    method IsPassing(intent: AuthorizedIntent) returns (passes: bool)
      requires Valid()
      ensures passes <==> Passes(intent)
    {
      var active := ingress.IsWorldActiveSession(intent.session);
      if !active || intent.session !in connectionBySession {
        return false;
      }
      passes := sync.IsSynced(connectionBySession[intent.session]);
    }

    method HandOver(zones: map<u64, ZoneQueue>, intent: AuthorizedIntent)
      returns (r: Result<Option<AuthorizedIntent>, RouterError>)
      requires Valid()
      ensures r == if Passes(intent) then RoutedTo(zones, intent) else Ok(None)
      ensures r.Ok? && r.value.Some? ==>
                && r.value.value == intent && intent.session in ingress.bySession
                && View().SyncedNow(ingress.bySession[intent.session].connection)
    {
      var passes := IsPassing(intent);
      r := if passes then RoutedTo(zones, intent) else Ok(None);
    }

    /** Takes the next intent from the queue. */
    method TakeIntent() returns (next: Option<AuthorizedIntent>)
      requires Valid()
      modifies ingress
      ensures Valid()
      ensures next == if old(ingress.queue) == [] then None else Some(old(ingress.queue)[0])
    {
      next := ingress.TryReceive();
    }

    /** The next queued intent reaches its zone exactly when it passes and its zone has room for it; a full
        zone drops it, and an unknown zone, a refused input or a closed zone is an error. */
    method RouteAuthorizedIntent(zones: map<u64, ZoneQueue>) returns (r: Result<Option<AuthorizedIntent>, RouterError>)
      requires Valid()
      modifies ingress
      ensures Valid() && View() == old(View())
      ensures old(ingress.queue) == [] ==> r == Ok(None)
      ensures old(ingress.queue) != [] ==>
                var intent := old(ingress.queue)[0];
                r == if Passes(intent) then RoutedTo(zones, intent) else Ok(None)
      ensures r.Ok? && r.value.Some? ==>
                && r.value.value.session in ingress.bySession
                && View().SyncedNow(ingress.bySession[r.value.value.session].connection)
    {
      var next := TakeIntent();
      if next.None? {
        return Ok(None);
      }
      r := HandOver(zones, next.value);
    }

    // ----- Acknowledgements -----

    /** Takes a connection out of everything but the session index. */
    method DropRoutes(connection: u64)
      requires Valid()
      modifies this, sync, delivery
      ensures Valid() && connectionBySession == old(connectionBySession)
      ensures View() == AfterDrop(old(View()), connection)
    {
      ghost var before := View();
      RemoveRoutes(connection);
      StepKeepsBarrier(delivery.policy, before, Drop(connection), View());
    }

    method RemoveRoutes(connection: u64)
      requires delivery.Valid() && RoutesAgree()
      modifies this, sync, delivery
      ensures delivery.Valid() && RoutesAgree() && connectionBySession == old(connectionBySession)
      ensures View() == AfterDrop(old(View()), connection)
    {
      sync.Remove(connection);
      delivery.Remove(connection);
      RemoveBridge(connection);
      reliable := reliable - {connection};
    }

    /** The connection is known, and its character, if it has one, left the world. */
    ghost predicate Leaves(connection: u64, despawned: bool)
      reads ingress
    {
      && connection in ingress.byConnection
      && (ingress.PhaseOf(connection).CharacterBound? || ingress.PhaseOf(connection).WorldActive? ==> despawned)
    }

    /** Cuts off a connection whose presentation could not be delivered: its session is closing, so
        nothing it still has queued is routed, and it is behind no barrier any more. */
    method Isolate(connection: u64, despawned: bool) returns (r: Result<(), Failure>)
      requires Valid() && connection in reliable
      modifies this, ingress, sync, delivery
      ensures Valid() && View() == AfterDrop(old(View()), connection)
      ensures connection in ingress.byConnection && ingress.PhaseOf(connection) == Closing
      ensures r == if old(Leaves(connection, despawned)) then Ok(()) else Err(WorldRefused)
    {
      var left := RevokeGameplay(connection, despawned);
      DropRoutes(connection);
      r := if left then Ok(()) else Err(WorldRefused);
    }

    /** Begins closing a session; its character leaves the world if it has one and the world agrees. */
    method RevokeGameplay(connection: u64, despawned: bool) returns (left: bool)
      requires ingress.Valid() && RoutesAgree() && connection in ingress.byConnection
      modifies ingress
      ensures ingress.Valid() && RoutesAgree() && ingress.OnlyStates() && ingress.PhaseOf(connection) == Closing
      ensures left <==> old(Leaves(connection, despawned))
    {
      var binding := ingress.WorldBindingForConnection(connection);
      var closing := ingress.BeginClosing(connection);
      left := binding.value.None? || despawned;
    }

    /** Every contract was sent when all are held and every send goes through; a failing send cuts the
        connection off, after all sends before it. */
    twostate predicate Presented(connection: u64, revision: u64, link: P.Link, quadrants: seq<Lattice.Coord>,
                                 despawned: bool, effect: AckEffect, sent: seq<P.Message>)
      reads this, sync, delivery, frontier.state
    {
      var contracts := P.Contracts(link, quadrants);
      && sent <= contracts
      && match effect
         case Resumed(resumed) => resumed == revision && sent == contracts && View() == old(View())
         case ContractsMissing => View() == old(View()) && exists c :: c in quadrants && c !in link.held
         case Isolated =>
           |sent| == link.sends && old(Leaves(connection, despawned)) && View() == AfterDrop(old(View()), connection)
         case AckWorldRefused =>
           |sent| == link.sends && !old(Leaves(connection, despawned)) && View() == AfterDrop(old(View()), connection)
         case _ => false
    }

    /** Every contract is held and can be sent. */
    predicate AllGoThrough(link: P.Link, quadrants: seq<Lattice.Coord>) {
      |P.Contracts(link, quadrants)| <= link.sends && forall c :: c in quadrants ==> c in link.held
    }

    /** Sends the revealed contracts to a connection that has just passed the barrier, in the manifest's
        order; a send that fails cuts the connection off. */
    method DeliverPresentation(connection: u64, revision: u64, link: P.Link, despawned: bool)
      returns (effect: AckEffect, sent: seq<P.Message>)
      requires Valid() && connection in reliable
      modifies this, ingress, sync, delivery
      ensures Valid()
      ensures !old(View()).SyncedNow(connection) ==> effect == DeliveredUnsynced
      ensures old(View()).SyncedNow(connection) && revision != old(View()).revision ==> effect == DeliveredDiverged
      ensures effect in {DeliveredUnsynced, DeliveredDiverged} ==> sent == [] && View() == old(View())
      ensures old(View()).SyncedNow(connection) && revision == old(View()).revision ==>
                && Presented(connection, revision, link, old(frontier.RevealedCoords()), despawned, effect, sent)
                && (effect.Resumed? <==> AllGoThrough(link, old(frontier.RevealedCoords())))
    {
      sent := [];
      var synced := sync.IsSynced(connection);
      if !synced {
        return DeliveredUnsynced, [];
      }
      var manifest := frontier.Manifest();
      if manifest.value.revision != revision {
        return DeliveredDiverged, [];
      }
      effect, sent := Present(connection, revision, link, manifest.value.quadrants, despawned);
    }

    /** Sends the contracts of the quadrants, and cuts the connection off when a send fails. */
    method Present(connection: u64, revision: u64, link: P.Link, quadrants: seq<Lattice.Coord>, despawned: bool)
      returns (effect: AckEffect, sent: seq<P.Message>)
      requires Valid() && connection in reliable
      modifies this, ingress, sync, delivery
      ensures Valid()
      ensures Presented(connection, revision, link, quadrants, despawned, effect, sent)
      ensures effect.Resumed? <==> AllGoThrough(link, quadrants)
    {
      var outcome;
      sent, outcome := P.SendContracts(link, quadrants);
      match outcome {
        case All => effect := Resumed(revision);
        case NotHeld(_) => effect := ContractsMissing;
        case Failed => effect := CutOff(connection, despawned);
      }
    }

    method CutOff(connection: u64, despawned: bool) returns (effect: AckEffect)
      requires Valid() && connection in reliable
      modifies this, ingress, sync, delivery
      ensures Valid() && View() == AfterDrop(old(View()), connection)
      ensures effect == if old(Leaves(connection, despawned)) then Isolated else AckWorldRefused
    {
      var isolated := Isolate(connection, despawned);
      effect := if isolated.Ok? then Isolated else AckWorldRefused;
    }

    /** Lets the registry decide, and ends the retries of a revision that it synchronized. */
    method Acknowledge(connection: u64, received: u64) returns (outcome: Result<AckOutcome, SyncError>)
      requires delivery.Valid()
      modifies sync, delivery
      ensures delivery.Valid() && View() == AfterAck(old(View()), connection, received)
      ensures match Acked(old(sync.byConnection), connection, received)
        case Ok((answer, _)) => outcome == Ok(answer)
        case Err(e) => outcome == Err(e)
    {
      outcome := sync.ApplyAck(connection, received);
      if outcome.Ok? && outcome.value.Synchronized? {
        var removed := delivery.Acknowledge(connection, outcome.value.revision);
      }
    }

    /** Applies an acknowledgement to the barrier, and ends the retries it satisfies. */
    method ApplyAck(connection: u64, received: u64) returns (outcome: Result<AckOutcome, SyncError>)
      requires Valid() && connection in reliable
      modifies sync, delivery
      ensures Valid() && View() == AfterAck(old(View()), connection, received)
      ensures outcome.Err? <==> received == 0 || received > View().revision
      ensures outcome.Ok? && outcome.value.StaleAck? <==> 0 < received < View().revision
      ensures outcome.Ok? && outcome.value.DuplicateAck? <==>
                received == old(View()).revision && old(View()).SyncedNow(connection)
      ensures outcome.Ok? && outcome.value.Synchronized? ==>
                outcome.value.revision == received == View().revision
                && View().SyncedNow(connection) && connection !in View().pending
    {
      ghost var before := View();
      outcome := Acknowledge(connection, received);
      StepKeepsBarrier(delivery.policy, before, Ack(connection, received), View());
    }

    /** An acknowledgement of the authoritative revision lifts the barrier and ends its retries;
        the consistency checks of the delivery that follows never fire. */
    method ManifestAck(connection: u64, received: u64, presents: bool, link: P.Link, despawned: bool)
      returns (effect: AckEffect, sent: seq<P.Message>)
      requires Valid()
      modifies this, ingress, sync, delivery
      ensures Valid()
      ensures effect !in {DeliveredUnsynced, DeliveredDiverged}
      ensures effect == NoConnection <==> connection !in old(reliable)
      ensures effect == FailClosed <==>
                connection in old(reliable) && (received == 0 || received > old(View()).revision)
      ensures View() == if effect == NoConnection then old(View())
                        else if effect in {Isolated, AckWorldRefused}
                        then AfterDrop(AfterAck(old(View()), connection, received), connection)
                        else AfterAck(old(View()), connection, received)
      ensures effect == Stale <==> connection in old(reliable) && 0 < received < old(View()).revision
      ensures effect == Repeated <==>
                connection in old(reliable) && received == old(View()).revision && old(View()).SyncedNow(connection)
      ensures sent <= P.Contracts(link, old(frontier.RevealedCoords()))
      ensures sent != [] ==> received == old(View()).revision
    {
      sent := [];
      if connection !in reliable {
        return NoConnection, [];
      }
      var outcome := ApplyAck(connection, received);
      if outcome.Err? {
        return FailClosed, [];
      }
      match outcome.value {
        case Synchronized(revision) =>
          if !presents {
            return Resumed(revision), [];
          }
          effect, sent := DeliverPresentation(connection, revision, link, despawned);
        case DuplicateAck(revision) =>
          effect := Repeated;
        case StaleAck(expected, stale) =>
          effect := Stale;
      }
    }

    // ----- Disconnection -----

    /** Revokes the session's gameplay, then takes its character out of the world. */
    method CloseSession(connection: u64, despawned: bool) returns (r: Result<(), Failure>)
      requires ingress.Valid() && RoutesAgree()
      modifies ingress
      ensures ingress.Valid() && RoutesAgree() && ingress.OnlyStates()
      ensures r.Ok? <==> old(Leaves(connection, despawned))
      ensures connection in ingress.byConnection ==> ingress.PhaseOf(connection) == Closing
    {
      var binding := ingress.WorldBindingForConnection(connection);
      if binding.Err? {
        return Err(SessionRefused(binding.error));
      }
      var left := RevokeGameplay(connection, despawned);
      r := if left then Ok(()) else Err(WorldRefused);
    }

    /** A transport disconnect forgets the connection, unless its registry entry or its world
        refuses first. */
    method Disconnect(connection: u64, session: u64, despawned: bool) returns (r: Result<(), Failure>)
      requires Valid()
      modifies this, ingress, sync, delivery
      ensures Valid()
      ensures View() == if old(Leaves(connection, despawned)) then AfterDrop(old(View()), connection) else old(View())
      ensures r.Ok? <==> old(Leaves(connection, despawned)) && old(ingress.byConnection)[connection] == session
      ensures r.Ok? ==> connection !in ingress.byConnection && session !in connectionBySession
    {
      r := CloseSession(connection, despawned);
      if r.Ok? {
        r := ForgetConnection(connection, session);
      }
    }

    method ForgetConnection(connection: u64, session: u64) returns (r: Result<(), Failure>)
      requires Valid() && connection in ingress.byConnection
      modifies this, ingress, sync, delivery
      ensures Valid() && View() == AfterDrop(old(View()), connection)
      ensures r.Ok? <==> old(ingress.byConnection)[connection] == session
      ensures connection !in ingress.byConnection && session !in connectionBySession
    {
      DropRoutes(connection);
      r := ForgetSession(connection, session);
    }

    method ForgetSession(connection: u64, session: u64) returns (r: Result<(), Failure>)
      requires ingress.Valid() && RoutesAgree() && connection !in reliable && connection in ingress.byConnection
      modifies this`connectionBySession, ingress
      ensures ingress.Valid() && RoutesAgree()
      ensures r.Ok? <==> old(ingress.byConnection)[connection] == session
      ensures connection !in ingress.byConnection && session !in connectionBySession
    {
      connectionBySession := connectionBySession - {session};
      var removed := ingress.RemoveByConnection(connection);
      r := if removed.value != session then Err(RemovedOther(removed.value)) else Ok(());
    }

    // ----- Delivery -----

    /** A retry is resent unless the send fails, and a timeout cuts the connection. */
    ghost predicate Answers(action: DeliveryAction, failing: set<u64>, effect: DeliveryEffect) {
      var c := action.connection;
      match action.notice
      case Retry(revision, attempt) => effect == if c in failing then SendFailed(c) else Resent(c, revision, attempt)
      case Timeout(_, _) => effect == TimedOut(c)
    }

    /** Resends or times out one connection's manifest. */
    method Deliver(action: DeliveryAction, revision: u64, failing: set<u64>) returns (effect: DeliveryEffect)
      requires delivery.Valid()
      modifies delivery
      ensures delivery.Valid()
      ensures delivery.pending ==
                if effect == SendFailed(action.connection) then old(delivery.pending) - {action.connection}
                                  else if effect.RevisionDiverged? then delivery.pending else old(delivery.pending)
      ensures action.connection in reliable && action.notice.revision == revision ==> Answers(action, failing, effect)
    {
      if action.connection !in reliable {
        return NoSender;
      }
      match action.notice {
        case Retry(tracked, attempt) =>
          if revision != tracked {
            delivery.Remove(action.connection);
            return RevisionDiverged(action.connection);
          }
          if action.connection in failing {
            delivery.Remove(action.connection);
            return SendFailed(action.connection);
          }
          effect := Resent(action.connection, tracked, attempt);
        case Timeout(tracked, sent) =>
          effect := TimedOut(action.connection);
      }
    }

    /** The connections of the retries that failed to be sent. */
    ghost predicate Unsent(actions: seq<DeliveryAction>, failing: set<u64>, unsent: set<u64>) {
      forall c :: c in unsent <==> c in failing && exists a :: a in actions && a.connection == c && a.notice.Retry?
    }

    method DeliverAll(actions: seq<DeliveryAction>, revision: u64, failing: set<u64>)
      returns (effects: seq<DeliveryEffect>, unsent: set<u64>)
      requires delivery.Valid()
      modifies delivery
      ensures delivery.Valid() && |effects| == |actions|
      ensures (forall i :: 0 <= i < |actions| ==>
                actions[i].connection in reliable && actions[i].notice.revision == revision) ==>
                && delivery.pending == old(delivery.pending) - unsent && Unsent(actions, failing, unsent)
                && forall i :: 0 <= i < |actions| ==> Answers(actions[i], failing, effects[i])
    {
      ghost var kept := delivery.pending;
      ghost var current :=
        forall i :: 0 <= i < |actions| ==> actions[i].connection in reliable && actions[i].notice.revision == revision;
      effects, unsent := [], {};
      for i := 0 to |actions|
        invariant delivery.Valid() && |effects| == i
        invariant current ==> delivery.pending == kept - unsent && Unsent(actions[..i], failing, unsent)
        invariant current ==> forall k :: 0 <= k < i ==> Answers(actions[k], failing, effects[k])
      {
        assert actions[..i + 1] == actions[..i] + [actions[i]];
        var effect := Deliver(actions[i], revision, failing);
        if effect.SendFailed? {
          unsent := unsent + {actions[i].connection};
        }
        effects := effects + [effect];
      }
      assert actions[..|actions|] == actions;
    }

    /** Every retry resends the authoritative revision to a connection that still has a sender: the
        divergence branch is never taken. */
    method EvaluateDelivery(now: nat, failing: set<u64>)
      returns (actions: seq<DeliveryAction>, effects: seq<DeliveryEffect>, unsent: set<u64>)
      requires Valid()
      modifies delivery
      ensures Valid() && Unsent(actions, failing, unsent)
      ensures BarrierStep(delivery.policy, old(View()), Tick(now, actions, unsent), View())
      ensures |effects| == |actions|
      ensures forall i :: 0 <= i < |actions| ==> Answers(actions[i], failing, effects[i])
    {
      ghost var before := View();
      var manifest := frontier.Manifest();
      actions := delivery.Evaluate(now);
      ghost var kept := delivery.pending;
      ActionsAllCurrent(delivery.policy, before, now, actions, kept);
      effects, unsent := DeliverAll(actions, manifest.value.revision, failing);
      StepKeepsBarrier(delivery.policy, before, Tick(now, actions, unsent), View());
    }

    // ----- Reveals -----

    /** Tracks the new revision for every connection with a reliable sender. */
    method TrackAll(revision: u64, now: nat)
      requires delivery.Valid()
      modifies delivery
      ensures delivery.Valid()
      ensures delivery.pending == TrackedAll(delivery.policy, old(delivery.pending), reliable, revision, now)
    {
      ghost var before := delivery.pending;
      var left := reliable;
      while left != {}
        invariant left <= reliable && delivery.Valid()
        invariant delivery.pending == TrackedAll(delivery.policy, before, reliable - left, revision, now)
        decreases |left|
      {
        var c :| c in left;
        TrackOneMore(delivery.policy, before, reliable - left, c, revision, now);
        assert reliable - (left - {c}) == (reliable - left) + {c};
        left := left - {c};
        delivery.Track(c, revision, now);
      }
      assert reliable - left == reliable;
    }

    method MarkAndTrackAll(revision: u64, now: nat)
      requires delivery.Valid() && revision != 0
      modifies sync, delivery
      ensures delivery.Valid()
      ensures sync.byConnection == AllPending(old(sync.byConnection), revision)
      ensures delivery.pending == TrackedAll(delivery.policy, old(delivery.pending), reliable, revision, now)
    {
      var marked := sync.MarkAllPending(revision);
      TrackAll(revision, now);
    }

    /** Puts every connection behind the barrier of a revision just committed. */
    method AdvanceBarrier(ghost before: Barrier, revision: u64, now: nat)
      requires delivery.Valid() && BarrierInvariant(delivery.policy, before)
      requires before.revision + 1 == revision == frontier.state.revision
      requires before == View().(revision := before.revision)
      modifies sync, delivery
      ensures delivery.Valid() && View() == AfterReveal(delivery.policy, before, now)
      ensures BarrierInvariant(delivery.policy, View())
    {
      MarkAndTrackAll(revision, now);
      StepKeepsBarrier(delivery.policy, before, BarrierEvent.Reveal(now), View());
    }

    /** A committed reveal puts every connection behind the barrier of the new revision; anything
        else leaves the barrier alone. */
    method CommitReveal(u: FrontierReveal.UnlockRequirements, resolve: FrontierReveal.Resolver, now: nat)
      returns (r: Result<FrontierReveal.RevealOutcome, Failure>)
      requires Valid()
      modifies frontier.state, sync, delivery
      ensures Valid()
      ensures if r.Ok? && r.value.Opened?
              then BarrierStep(delivery.policy, old(View()), BarrierEvent.Reveal(now), View())
              else View() == old(View())
      ensures r.Ok? && r.value.Opened? <==> FrontierReveal.Opens(old(frontier.state.View()), u, resolve)
    {
      ghost var before := View();
      r := CommitFrontier(u, resolve);
      if r.Ok? && r.value.Opened? {
        AdvanceBarrier(before, r.value.transition.revision, now);
      }
    }

    method CommitFrontier(u: FrontierReveal.UnlockRequirements, resolve: FrontierReveal.Resolver)
      returns (r: Result<FrontierReveal.RevealOutcome, Failure>)
      requires frontier.Valid()
      modifies frontier.state
      ensures frontier.Valid()
      ensures if r.Ok? && r.value.Opened?
              then frontier.state.revision == old(frontier.state.revision) + 1 == r.value.transition.revision
              else frontier.state.revision == old(frontier.state.revision)
      ensures r.Ok? && r.value.Opened? <==> FrontierReveal.Opens(old(frontier.state.View()), u, resolve)
    {
      ghost var before := frontier.View();
      var outcome := frontier.CommitReveal(u, resolve);
      if outcome.Err? {
        assert frontier.View() == before;
        return Err(RevealFailed(outcome.error));
      }
      r := Ok(outcome.value);
      assert !outcome.value.Opened? ==> frontier.View() == before;
    }
  }
}
