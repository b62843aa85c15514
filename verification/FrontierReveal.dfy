/** The reveal transaction and the eligibility of a quadrant to be revealed
    (crates/domain/src/frontier_reveal.rs, crates/domain/src/frontier_eligibility.rs). */
module FrontierReveal {
  import opened MachineInts
  import opened Lattice
  import opened Frontier
  import opened CandidateFrontier

  /** Requirement identifiers declared for one quadrant. */
  datatype UnlockRequirements = UnlockRequirements(coord: Coord, requirements: seq<u32>)

  /** What the rest of the server knows about a requirement; `None` when it is unknown. */
  type Resolver = (Coord, u32) -> Option<bool>

  datatype EligibilityError = UnknownRequirement(coord: Coord, requirement: u32)

  predicate Known(u: UnlockRequirements, resolve: Resolver) {
    forall k :: 0 <= k < |u.requirements| ==> resolve(u.coord, u.requirements[k]) != None
  }

  predicate Eligible(u: UnlockRequirements, resolve: Resolver) {
    forall k :: 0 <= k < |u.requirements| ==> resolve(u.coord, u.requirements[k]) == Some(true)
  }

  /** The requirements answered `false`, in their declared order. */
  function Unsatisfied(coord: Coord, requirements: seq<u32>, resolve: Resolver): (r: seq<u32>)
    ensures forall q :: q in r <==> q in requirements && resolve(coord, q) == Some(false)
  {
    if requirements == [] then []
    else
      var earlier, last := requirements[..|requirements| - 1], requirements[|requirements| - 1];
      assert requirements == earlier + [last];
      Unsatisfied(coord, earlier, resolve) + (if resolve(coord, last) == Some(false) then [last] else [])
  }

  lemma NothingUnsatisfied(u: UnlockRequirements, resolve: Resolver)
    requires Known(u, resolve)
    ensures Unsatisfied(u.coord, u.requirements, resolve) == [] <==> Eligible(u, resolve)
  {
    var unsatisfied := Unsatisfied(u.coord, u.requirements, resolve);
    if unsatisfied == [] {
      forall k | 0 <= k < |u.requirements|
        ensures resolve(u.coord, u.requirements[k]) == Some(true)
      {
        var answer := resolve(u.coord, u.requirements[k]);
        assert u.requirements[k] !in unsatisfied;
        assert answer.Some? && answer != Some(false);
        assert answer == Some(answer.value) && answer.value == true;
      }
    } else {
      assert unsatisfied[0] in unsatisfied;
      var k :| 0 <= k < |u.requirements| && u.requirements[k] == unsatisfied[0];
    }
  }

  method EvaluateEligibility(u: UnlockRequirements, resolve: Resolver) returns (r: Result<seq<u32>, EligibilityError>)
    ensures r.Ok? <==> Known(u, resolve)
    ensures r.Err? ==> r.error.coord == u.coord && r.error.requirement in u.requirements
                       && resolve(u.coord, r.error.requirement) == None
    ensures r.Ok? ==> r.value == Unsatisfied(u.coord, u.requirements, resolve)
                      && (r.value == [] <==> Eligible(u, resolve))
  {
    var unsatisfied: seq<u32> := [];
    for i := 0 to |u.requirements|
      invariant forall k :: 0 <= k < i ==> resolve(u.coord, u.requirements[k]) != None
      invariant unsatisfied == Unsatisfied(u.coord, u.requirements[..i], resolve)
    {
      assert u.requirements[..i + 1] == u.requirements[..i] + [u.requirements[i]];
      assert u.requirements[..i + 1][..i] == u.requirements[..i];
      match resolve(u.coord, u.requirements[i]) {
        case Some(satisfied) =>
          if !satisfied {
            unsatisfied := unsatisfied + [u.requirements[i]];
          }
        case None =>
          return Err(UnknownRequirement(u.coord, u.requirements[i]));
      }
    }
    assert u.requirements[..|u.requirements|] == u.requirements;
    NothingUnsatisfied(u, resolve);
    r := Ok(unsatisfied);
  }

  datatype RevealOutcome =
    | Blocked(unsatisfied: seq<u32>)
    | AlreadyRevealed(coord: Coord, revision: u64)
    | Opened(transition: TransitionRecord, derived: seq<Coord>)

  datatype RevealError =
    | NotPrepared(coord: Coord, actual: Phase)
    | MissingRevealTransition(coord: Coord)
    | Eligibility(eligibility: EligibilityError)
    | RevealLifecycle(lifecycle: LifecycleError)
    | Derivation(derivation: DerivationError)

  /** A committed reveal: the quadrant opens and the ring of candidates is closed around it. */
  ghost predicate Reveals(f: FrontierView, c: Coord, after: FrontierView, transition: TransitionRecord,
                          derived: seq<Coord>) {
    && f.PhaseOf(c) == Prepared
    && Transitioned(f, c, Revealed).Ok?
    && transition == TransitionRecord(c, Prepared, Revealed, f.revision, f.revision + 1)
    && Derives(Transitioned(f, c, Revealed).value.1, after, derived)
  }

  /** What the counters and the coordinates allow. */
  predicate HasRoom(f: FrontierView, c: Coord) {
    && |f.revealed| < MAX_REVEALED && f.revision < U64_MAX
    && !AtEdge(c) && (forall r :: r in f.revealed ==> !AtEdge(r))
  }

  /** The quadrant is prepared, its requirements are met, and there is room for it. */
  predicate Opens(f: FrontierView, u: UnlockRequirements, resolve: Resolver) {
    f.PhaseOf(u.coord) == Prepared && Eligible(u, resolve) && HasRoom(f, u.coord)
  }

  /** All or nothing: the staged copy replaces the state only when every step succeeded. */
  method CommitAuthoritativeReveal(state: FrontierState, u: UnlockRequirements, resolve: Resolver)
    returns (r: Result<RevealOutcome, RevealError>)
    requires state.Valid()
    modifies state
    ensures state.Valid()
    ensures !(r.Ok? && r.value.Opened?) ==> state.View() == old(state.View())
    ensures r.Ok? && r.value.Opened? ==>
              Reveals(old(state.View()), u.coord, state.View(), r.value.transition, r.value.derived)
    ensures var f := old(state.View());
            match f.PhaseOf(u.coord)
            case Revealed => r == Ok(AlreadyRevealed(u.coord, f.revision))
            case Prepared =>
              && (r.Err? && r.error.Eligibility? <==> !Known(u, resolve))
              && (r.Ok? && r.value.Blocked? <==> Known(u, resolve) && !Eligible(u, resolve))
              && (r.Ok? && r.value.Opened? <==> Eligible(u, resolve) && HasRoom(f, u.coord))
              && (r.Ok? && r.value.Blocked? ==> r.value.unsatisfied == Unsatisfied(u.coord, u.requirements, resolve))
              && (r.Err? ==> !r.error.NotPrepared? && !r.error.MissingRevealTransition?)
            case actual => r == Err(NotPrepared(u.coord, actual))
  {
    var coord := u.coord;
    var phase := state.State(coord);
    match phase {
      case Revealed => return Ok(AlreadyRevealed(coord, state.revision));
      case Prepared =>
      case actual => return Err(NotPrepared(coord, actual));
    }
    var evaluation := EvaluateEligibility(u, resolve);
    if evaluation.Err? {
      return Err(Eligibility(evaluation.error));
    }
    if evaluation.value != [] {
      return Ok(Blocked(evaluation.value));
    }
    var staged := new FrontierState.CloneOf(state);
    var revealed := staged.Transition(coord, Revealed);
    if revealed.Err? {
      return Err(RevealLifecycle(revealed.error));
    }
    if revealed.value == None {
      return Err(MissingRevealTransition(coord));
    }
    assert staged.revealed == state.revealed + [coord];
    var derived := DeriveCandidateFrontier(staged);
    if derived.Err? {
      assert derived.error.coord == coord || derived.error.coord in state.revealed;
      return Err(Derivation(derived.error));
    }
    assert forall q :: q in state.revealed + [coord] ==> !AtEdge(q);
    assert HasRoom(state.View(), coord) by {
      assert coord in state.revealed + [coord];
      assert forall q :: q in state.revealed ==> q in state.revealed + [coord];
    }
    state.Assign(staged);
    r := Ok(Opened(revealed.value.value, derived.value));
  }
}
