/** Preparation slots: at most one identity in flight or prepared per quadrant
    (crates/domain/src/quadrant_preparation.rs). */
module QuadrantPreparation {
  import opened MachineInts
  import opened Lattice
  import opened Frontier

  /** A non-zero digest; how it is computed is not part of this model. */
  type Fingerprint = x: int | 0 < x witness 1

  datatype Identity = Identity(coord: Coord, generatorVersion: u32, inputs: Fingerprint)

  datatype Artifact = Artifact(identity: Identity, digest: Fingerprint, bytes: u64)

  datatype Slot = InFlight(pending: Identity) | Ready(artifact: Artifact) {
    function Owner(): Identity {
      match this
      case InFlight(pending) => pending
      case Ready(artifact) => artifact.identity
    }
  }

  type Slots = map<Coord, Slot>

  datatype RequestOutcome = Started | AlreadyInFlight | AlreadyReady
  datatype CompletionOutcome = Completed(transition: TransitionRecord) | CompletedBefore
  datatype AbandonOutcome = Removed | NotFound | KeptReady

  datatype PreparationError =
    | FrontierNotCandidate(coord: Coord, actual: Phase)
    | ConflictingIdentity(coord: Coord)
    | CompletionWithoutRequest(coord: Coord)
    | ConflictingArtifact(coord: Coord)
    | MissingPreparedTransition(coord: Coord)
    | PreparationLifecycle(lifecycle: LifecycleError)

  // ----- The operations on values -----

  function Requested(slots: Slots, f: FrontierView, id: Identity): Result<(RequestOutcome, Slots), PreparationError> {
    if id.coord in slots then
      if slots[id.coord].Owner() != id then Err(ConflictingIdentity(id.coord))
      else Ok((if slots[id.coord].InFlight? then AlreadyInFlight else AlreadyReady, slots))
    else if f.PhaseOf(id.coord) != Candidate then Err(FrontierNotCandidate(id.coord, f.PhaseOf(id.coord)))
    else Ok((Started, slots[id.coord := InFlight(id)]))
  }

  function Finished(slots: Slots, f: FrontierView, artifact: Artifact)
    : Result<(CompletionOutcome, Slots, FrontierView), PreparationError>
  {
    var c := artifact.identity.coord;
    if c !in slots then Err(CompletionWithoutRequest(c))
    else if slots[c].Owner() != artifact.identity then Err(ConflictingIdentity(c))
    else if slots[c].Ready? then
      if slots[c].artifact == artifact then Ok((CompletedBefore, slots, f)) else Err(ConflictingArtifact(c))
    else if f.PhaseOf(c) != Candidate then Err(FrontierNotCandidate(c, f.PhaseOf(c)))
    else
      match Transitioned(f, c, Prepared)
      case Err(e) => Err(PreparationLifecycle(e))
      case Ok((None, _)) => Err(MissingPreparedTransition(c))
      case Ok((Some(transition), after)) => Ok((Completed(transition), slots[c := Ready(artifact)], after))
  }

  function Abandoned(slots: Slots, id: Identity): Result<(AbandonOutcome, Slots), PreparationError> {
    if id.coord !in slots then Ok((NotFound, slots))
    else if slots[id.coord].Owner() != id then Err(ConflictingIdentity(id.coord))
    else if slots[id.coord].Ready? then Ok((KeptReady, slots))
    else Ok((Removed, slots - {id.coord}))
  }

  function ReadyArtifact(slots: Slots, id: Identity): Option<Artifact> {
    if id.coord in slots && slots[id.coord].Ready? && slots[id.coord].Owner() == id
    then Some(slots[id.coord].artifact)
    else None
  }

  // ----- Agreement with the frontier -----

  /** Work is in flight only for Candidates; what is Prepared holds an artifact; and an artifact
      outlives the reveal of its quadrant. */
  ghost predicate Agrees(slots: Slots, f: FrontierView) {
    && (forall c :: c in slots ==> slots[c].Owner().coord == c)
    && (forall c :: c in slots && slots[c].InFlight? ==> f.PhaseOf(c) == Candidate)
    && (forall c :: c in slots && slots[c].Ready? ==> f.PhaseOf(c) in {Prepared, Revealed})
    && (forall c: Coord :: f.PhaseOf(c) == Prepared ==> c in slots && slots[c].Ready?)
  }

  lemma RequestAgrees(slots: Slots, f: FrontierView, id: Identity)
    requires Agrees(slots, f) && Requested(slots, f, id).Ok?
    ensures Agrees(Requested(slots, f, id).value.1, f)
  {
  }

  lemma AbandonAgrees(slots: Slots, f: FrontierView, id: Identity)
    requires Agrees(slots, f) && Abandoned(slots, id).Ok?
    ensures Agrees(Abandoned(slots, id).value.1, f)
  {
  }

  lemma FinishAgrees(slots: Slots, f: FrontierView, artifact: Artifact)
    requires f.WellFormed() && Agrees(slots, f) && Finished(slots, f, artifact).Ok?
    ensures var (_, slots', f') := Finished(slots, f, artifact).value;
            && f'.WellFormed() && Agrees(slots', f')
            && f'.revision == f.revision && f'.revealed == f.revealed
  {
    var (outcome, slots', f') := Finished(slots, f, artifact).value;
    if outcome.Completed? {
      forall d: Coord
        ensures f'.PhaseOf(d) == if d == artifact.identity.coord then Prepared else f.PhaseOf(d)
      {
        TransitionEffect(f, artifact.identity.coord, Prepared, d);
      }
    }
  }

  /** Completing is refused for exactly three reasons, none of them about the frontier: once the
      slot of that identity is in flight, completion succeeds, and the artifact is then found. */
  lemma CompletionSucceedsIff(slots: Slots, f: FrontierView, artifact: Artifact)
    requires f.WellFormed() && Agrees(slots, f)
    ensures var id := artifact.identity;
            Finished(slots, f, artifact).Ok?
            <==> id.coord in slots && slots[id.coord] in {InFlight(id), Ready(artifact)}
    ensures Finished(slots, f, artifact).Ok? ==>
              ReadyArtifact(Finished(slots, f, artifact).value.1, artifact.identity) == Some(artifact)
  {
  }

  /** Abandoning undoes a request that started. */
  lemma AbandonUndoesRequest(slots: Slots, f: FrontierView, id: Identity)
    requires Requested(slots, f, id).Ok? && Requested(slots, f, id).value.0 == Started
    ensures Abandoned(Requested(slots, f, id).value.1, id) == Ok((Removed, slots))
  {
    assert slots[id.coord := InFlight(id)] - {id.coord} == slots;
  }

  /** Agreement survives any change of the frontier that reveals Prepared quadrants and marks
      Potential ones. */
  lemma RevealAgrees(slots: Slots, f: FrontierView, after: FrontierView)
    requires Agrees(slots, f)
    requires forall c: Coord :: after.PhaseOf(c) == f.PhaseOf(c)
               || (f.PhaseOf(c) == Prepared && after.PhaseOf(c) == Revealed)
               || (f.PhaseOf(c) == Potential && after.PhaseOf(c) == Candidate)
    ensures Agrees(slots, after)
  {
  }

  // ----- The mutable state -----

  class QuadrantPreparationState {
    var slots: Slots

    constructor ()
      ensures slots == map[]
    {
      slots := map[];
    }

    method Request(frontier: FrontierState, id: Identity) returns (r: Result<RequestOutcome, PreparationError>)
      requires frontier.Valid()
      modifies this
      ensures match Requested(old(slots), frontier.View(), id)
        case Ok((outcome, after)) => r == Ok(outcome) && slots == after
        case Err(e) => r == Err(e) && slots == old(slots)
    {
      if id.coord in slots {
        var slot := slots[id.coord];
        if slot.Owner() != id {
          return Err(ConflictingIdentity(id.coord));
        }
        match slot {
          case InFlight(_) => return Ok(AlreadyInFlight);
          case Ready(_) => return Ok(AlreadyReady);
        }
      }
      var actual := frontier.State(id.coord);
      if actual != Candidate {
        return Err(FrontierNotCandidate(id.coord, actual));
      }
      slots := slots[id.coord := InFlight(id)];
      r := Ok(Started);
    }

    method Complete(frontier: FrontierState, artifact: Artifact)
      returns (r: Result<CompletionOutcome, PreparationError>)
      requires frontier.Valid()
      modifies this, frontier
      ensures frontier.Valid()
      ensures match Finished(old(slots), old(frontier.View()), artifact)
        case Ok((outcome, after, view)) => r == Ok(outcome) && slots == after && frontier.View() == view
        case Err(e) => r == Err(e) && slots == old(slots) && frontier.View() == old(frontier.View())
    {
      var coord := artifact.identity.coord;
      if coord !in slots {
        return Err(CompletionWithoutRequest(coord));
      }
      var slot := slots[coord];
      if slot.Owner() != artifact.identity {
        return Err(ConflictingIdentity(coord));
      }
      if slot.Ready? {
        return if slot.artifact == artifact then Ok(CompletedBefore) else Err(ConflictingArtifact(coord));
      }
      var actual := frontier.State(coord);
      if actual != Candidate {
        return Err(FrontierNotCandidate(coord, actual));
      }
      var transition := frontier.Transition(coord, Prepared);
      if transition.Err? {
        // a Candidate can always be marked Prepared
        assert false;
      }
      if transition.value == None {
        return Err(MissingPreparedTransition(coord));
      }
      slots := slots[coord := Ready(artifact)];
      r := Ok(Completed(transition.value.value));
    }

    method Abandon(id: Identity) returns (r: Result<AbandonOutcome, PreparationError>)
      modifies this
      ensures match Abandoned(old(slots), id)
        case Ok((outcome, after)) => r == Ok(outcome) && slots == after
        case Err(e) => r == Err(e) && slots == old(slots)
    {
      if id.coord !in slots {
        return Ok(NotFound);
      }
      var slot := slots[id.coord];
      if slot.Owner() != id {
        return Err(ConflictingIdentity(id.coord));
      }
      if slot.Ready? {
        return Ok(KeptReady);
      }
      slots := slots - {id.coord};
      r := Ok(Removed);
    }

    method PreparedArtifact(id: Identity) returns (r: Option<Artifact>)
      ensures r == ReadyArtifact(slots, id)
    {
      r := None;
      if id.coord in slots {
        match slots[id.coord] {
          case Ready(artifact) =>
            if artifact.identity == id {
              r := Some(artifact);
            }
          case InFlight(_) =>
        }
      }
    }
  }
}
