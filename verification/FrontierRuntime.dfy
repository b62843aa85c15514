/** The frontier runtime: lifecycle, preparations and the public manifest
    (apps/world-server/src/frontier_runtime.rs). */
module FrontierRuntimes {
  import opened MachineInts
  import opened Lattice
  import opened Frontier
  import opened CandidateFrontier
  import opened FrontierReveal
  import opened QuadrantPreparation
  import Codec = FrontierManifestCodec

  /** The mutable part of the runtime as a value. */
  datatype RuntimeView = RuntimeView(frontier: FrontierView, slots: Slots)

  // ----- What every reachable runtime keeps -----

  /** Every neighbour of the revealed region is at least a candidate. */
  ghost predicate Ring(f: FrontierView) {
    forall r, c: Coord :: r in f.revealed && Adjacent(r, c) ==> f.PhaseOf(c) != Potential
  }

  /** Nothing is a candidate, or prepared, away from the revealed region. */
  ghost predicate Anchored(f: FrontierView) {
    forall c :: c in f.lifecycle ==> TouchesRevealed(f, c)
  }

  ghost predicate FrontierInvariant(f: FrontierView) {
    && f.WellFormed() && f.revealed != []
    && (forall r :: r in f.revealed ==> !AtEdge(r))
    && Connected(Region(f.revealed))
    && Ring(f) && Anchored(f)
  }

  ghost predicate Invariant(v: RuntimeView) {
    FrontierInvariant(v.frontier) && Agrees(v.slots, v.frontier)
  }

  lemma DerivationClosesRing(f: FrontierView, after: FrontierView, marked: seq<Coord>)
    requires f.WellFormed() && Anchored(f) && Derives(f, after, marked)
    ensures after.WellFormed() && Ring(after) && Anchored(after)
    ensures forall c: Coord :: after.PhaseOf(c) == if NewCandidate(f, c) then Candidate else f.PhaseOf(c)
  {
    forall r, c: Coord | r in after.revealed && Adjacent(r, c)
      ensures after.PhaseOf(c) != Potential
    {
      if f.PhaseOf(c) == Potential {
        assert NewCandidate(f, c);
      }
    }
    forall c | c in after.lifecycle
      ensures TouchesRevealed(after, c)
    {
      assert c in f.lifecycle ==> TouchesRevealed(f, c);
      assert c in marked ==> NewCandidate(f, c);
    }
  }

  /** A quadrant revealed next to a connected region leaves it connected. */
  lemma RevealKeepsConnected(f: FrontierView, c: Coord)
    requires Connected(Region(f.revealed)) && TouchesRevealed(f, c)
    ensures Connected(Region(f.revealed + [c]))
  {
    var r :| r in f.revealed && Adjacent(r, c);
    ConnectedExtends(Region(f.revealed), c, r);
    assert Region(f.revealed + [c]) == Region(f.revealed) + iset{c};
  }

  lemma RevealKeepsInvariant(v: RuntimeView, c: Coord, after: FrontierView, transition: TransitionRecord,
                             derived: seq<Coord>)
    requires Invariant(v) && Reveals(v.frontier, c, after, transition, derived)
    requires forall r :: r in after.revealed ==> !AtEdge(r)
    ensures Invariant(RuntimeView(after, v.slots))
  {
    var f := v.frontier;
    var uncovered := Transitioned(f, c, Revealed).value.1;
    assert c in f.lifecycle;
    RevealKeepsConnected(f, c);
    TransitionKeepsWellFormed(f, c, Revealed);
    forall d | d in uncovered.lifecycle
      ensures TouchesRevealed(uncovered, d)
    {
      var r :| r in f.revealed && Adjacent(r, d);
      assert r in uncovered.revealed;
    }
    DerivationClosesRing(uncovered, after, derived);
    forall d: Coord
      ensures after.PhaseOf(d) == f.PhaseOf(d)
              || (f.PhaseOf(d) == Prepared && after.PhaseOf(d) == Revealed)
              || (f.PhaseOf(d) == Potential && after.PhaseOf(d) == Candidate)
    {
      TransitionEffect(f, c, Revealed, d);
    }
    RevealAgrees(v.slots, f, after);
  }

  lemma InitialInvariant(initial: InitialFrontier, revision: u64, after: FrontierView, marked: seq<Coord>)
    requires IsRectangular(initial) && revision != 0
    requires Derives(FrontierView(revision, initial.quadrants, map[]), after, marked)
    requires forall r :: r in initial.quadrants ==> !AtEdge(r)
    ensures Invariant(RuntimeView(after, map[]))
  {
    var f := FrontierView(revision, initial.quadrants, map[]);
    InitialWellFormed(initial, revision);
    RectangleConnected(initial.minCoord, initial.width, initial.height);
    RectanglePoints(initial.minCoord, initial.width, initial.height);
    assert initial.minCoord in initial.quadrants;
    DerivationClosesRing(f, after, marked);
  }

  lemma FinishKeepsInvariant(v: RuntimeView, artifact: Artifact)
    requires Invariant(v) && Finished(v.slots, v.frontier, artifact).Ok?
    ensures var (_, slots, f) := Finished(v.slots, v.frontier, artifact).value; Invariant(RuntimeView(f, slots))
  {
    var (outcome, slots, f) := Finished(v.slots, v.frontier, artifact).value;
    FinishAgrees(v.slots, v.frontier, artifact);
    if outcome.Completed? {
      FinishPrepares(v, artifact);
    }
  }

  /** A completed preparation makes its Candidate Prepared and touches nothing else. */
  lemma FinishPrepares(v: RuntimeView, artifact: Artifact)
    requires FrontierInvariant(v.frontier) && Finished(v.slots, v.frontier, artifact).Ok?
    requires Finished(v.slots, v.frontier, artifact).value.0.Completed?
    ensures FrontierInvariant(Finished(v.slots, v.frontier, artifact).value.2)
  {
    var f := Finished(v.slots, v.frontier, artifact).value.2;
    var c := artifact.identity.coord;
    forall d: Coord
      ensures f.PhaseOf(d) == if d == c then Prepared else v.frontier.PhaseOf(d)
    {
      TransitionEffect(v.frontier, c, Prepared, d);
    }
    assert f.lifecycle.Keys == v.frontier.lifecycle.Keys + {c};
    assert c in v.frontier.lifecycle;
  }

  // ----- Runs -----

  datatype Action =
    | Idle
    | Request(id: Identity)
    | Finish(artifact: Artifact)
    | Abandon(id: Identity)
    | Reveal(coord: Coord, transition: TransitionRecord, derived: seq<Coord>)

  /** One call on the runtime; calls that fail are `Idle`. */
  ghost predicate Acts(v: RuntimeView, action: Action, w: RuntimeView) {
    match action
    case Idle => w == v
    case Request(id) =>
      Requested(v.slots, v.frontier, id).Ok? && w == v.(slots := Requested(v.slots, v.frontier, id).value.1)
    case Finish(artifact) =>
      Finished(v.slots, v.frontier, artifact).Ok?
      && var (_, slots, f) := Finished(v.slots, v.frontier, artifact).value; w == RuntimeView(f, slots)
    case Abandon(id) =>
      Abandoned(v.slots, id).Ok? && w == v.(slots := Abandoned(v.slots, id).value.1)
    case Reveal(c, transition, derived) =>
      && Reveals(v.frontier, c, w.frontier, transition, derived) && w.slots == v.slots
      && (forall r :: r in w.frontier.revealed ==> !AtEdge(r))
  }

  ghost predicate Run(views: seq<RuntimeView>, actions: seq<Action>) {
    && |views| == |actions| + 1
    && forall i {:trigger actions[i]} :: 0 <= i < |actions| ==> Acts(views[i], actions[i], views[i + 1])
  }

  lemma ActOfRun(views: seq<RuntimeView>, actions: seq<Action>, i: nat)
    requires Run(views, actions) && i < |actions|
    ensures Acts(views[i], actions[i], views[i + 1])
  {
  }

  function RevealCount(actions: seq<Action>): nat {
    if actions == [] then 0
    else RevealCount(actions[..|actions| - 1]) + (if actions[|actions| - 1].Reveal? then 1 else 0)
  }

  /** One call keeps the invariant, never takes a quadrant back, and moves the public revision
      exactly when it reveals. */
  lemma ActsKeepsInvariant(v: RuntimeView, action: Action, w: RuntimeView)
    requires Invariant(v) && Acts(v, action, w)
    ensures Invariant(w)
    ensures v.frontier.revealed <= w.frontier.revealed
    ensures w.frontier.revision == v.frontier.revision + (if action.Reveal? then 1 else 0)
    ensures |w.frontier.revealed| == |v.frontier.revealed| + (if action.Reveal? then 1 else 0)
  {
    match action
    case Idle =>
    case Request(id) => RequestAgrees(v.slots, v.frontier, id);
    case Abandon(id) => AbandonAgrees(v.slots, v.frontier, id);
    case Finish(artifact) =>
      FinishKeepsInvariant(v, artifact);
      FinishAgrees(v.slots, v.frontier, artifact);
    case Reveal(c, transition, derived) => RevealKeepsInvariant(v, c, w.frontier, transition, derived);
  }

  /** Along any run the revealed region stays connected and ringed by non-Potential quadrants. */
  lemma {:induction false} RunKeepsInvariant(views: seq<RuntimeView>, actions: seq<Action>, i: nat)
    requires Run(views, actions) && Invariant(views[0]) && i < |views|
    ensures Invariant(views[i])
  {
    if i > 0 {
      RunKeepsInvariant(views, actions, i - 1);
      ActOfRun(views, actions, i - 1);
      ActsKeepsInvariant(views[i - 1], actions[i - 1], views[i]);
    }
  }

  /** `w` shows all that `v` shows and `count` quadrants more, one revision each. */
  predicate GrownBy(v: RuntimeView, count: nat, w: RuntimeView) {
    && v.frontier.revealed <= w.frontier.revealed
    && w.frontier.revision == v.frontier.revision + count
    && |w.frontier.revealed| == |v.frontier.revealed| + count
  }

  /** Along any run the revealed region only grows, and the revision counts the reveals. */
  lemma {:induction false} RunGrows(views: seq<RuntimeView>, actions: seq<Action>, i: nat, j: nat)
    requires Run(views, actions) && Invariant(views[0]) && i <= j < |views|
    ensures GrownBy(views[i], RevealCount(actions[i..j]), views[j])
    decreases j
  {
    if i < j {
      RunGrows(views, actions, i, j - 1);
      GrowsOneMore(views, actions, i, j - 1);
    }
  }

  lemma GrowsOneMore(views: seq<RuntimeView>, actions: seq<Action>, i: nat, j: nat)
    requires Run(views, actions) && Invariant(views[0]) && i <= j < |actions|
    requires GrownBy(views[i], RevealCount(actions[i..j]), views[j])
    ensures GrownBy(views[i], RevealCount(actions[i..j + 1]), views[j + 1])
  {
    RunStepGrows(views, actions, j);
    GrownByAdds(views[i], RevealCount(actions[i..j]), views[j], RevealCount([actions[j]]), views[j + 1]);
    OneMoreAction(actions, i, j + 1);
  }

  lemma GrownByAdds(u: RuntimeView, first: nat, v: RuntimeView, second: nat, w: RuntimeView)
    requires GrownBy(u, first, v) && GrownBy(v, second, w)
    ensures GrownBy(u, first + second, w)
  {
  }

  lemma RunStepGrows(views: seq<RuntimeView>, actions: seq<Action>, i: nat)
    requires Run(views, actions) && Invariant(views[0]) && i < |actions|
    ensures GrownBy(views[i], RevealCount([actions[i]]), views[i + 1])
  {
    RunKeepsInvariant(views, actions, i);
    ActOfRun(views, actions, i);
    ActsKeepsInvariant(views[i], actions[i], views[i + 1]);
    assert [actions[i]][..0] == [];
  }

  lemma OneMoreAction(actions: seq<Action>, i: nat, j: nat)
    requires i < j <= |actions|
    ensures RevealCount(actions[i..j]) == RevealCount(actions[i..j - 1]) + RevealCount([actions[j - 1]])
  {
    assert actions[i..j][..j - i - 1] == actions[i..j - 1];
    assert [actions[j - 1]][..0] == [];
  }

  // ----- The public manifest -----

  function ManifestOf(f: FrontierView, generatorVersion: u32, quadrantSizeMm: i64): Codec.FrontierManifest
    requires f.WellFormed()
  {
    Codec.FrontierManifest(Codec.VERSION, generatorVersion, quadrantSizeMm, f.revision, SortedCoords(f.revealed))
  }

  /** In every reachable state the manifest is valid, whatever is being prepared. */
  lemma ManifestValidIff(f: FrontierView, generatorVersion: u32, quadrantSizeMm: i64)
    requires FrontierInvariant(f)
    ensures Codec.ValidManifest(ManifestOf(f, generatorVersion, quadrantSizeMm))
            <==> generatorVersion != 0 && 0 < quadrantSizeMm
  {
    RowMajorNoDuplicates(SortedCoords(f.revealed));
  }

  /** The manifest shows the set of revealed quadrants and the revision, and nothing else: neither
      the order of the reveals nor what is a candidate or prepared. */
  lemma ManifestShowsRevealedOnly(f: FrontierView, g: FrontierView, generatorVersion: u32, quadrantSizeMm: i64)
    requires f.WellFormed() && g.WellFormed()
    ensures ManifestOf(f, generatorVersion, quadrantSizeMm) == ManifestOf(g, generatorVersion, quadrantSizeMm)
            <==> f.revision == g.revision && forall c: Coord :: c in f.revealed <==> c in g.revealed
  {
    if forall c: Coord :: c in f.revealed <==> c in g.revealed {
      forall p
        ensures p in f.revealed <==> p in g.revealed
      {
        if p in f.revealed { var i :| 0 <= i < |f.revealed| && f.revealed[i] == p; assert f.revealed[i] in g.revealed; }
        if p in g.revealed { var i :| 0 <= i < |g.revealed| && g.revealed[i] == p; assert g.revealed[i] in f.revealed; }
      }
      SortedByElements(f.revealed, g.revealed);
    }
    if SortedCoords(f.revealed) == SortedCoords(g.revealed) {
      forall c: Coord
        ensures c in f.revealed <==> c in g.revealed
      {
        assert c in SortedCoords(f.revealed) <==> c in SortedCoords(g.revealed);
      }
    }
  }

  // ----- The runtime -----

  datatype RuntimeError =
    | FrontierInitialization(lifecycle: LifecycleError)
    | InitialDerivation(derivation: DerivationError)
    | InvalidManifest(manifest: Codec.ManifestError)
    | GeneratorMismatch(identity: u32, runtime: u32)
    | Preparation(preparation: PreparationError)
    | RevealTransaction(refusal: RevealError)

  method BuildManifest(state: FrontierState, generatorVersion: u32, quadrantSizeMm: i64)
    returns (r: Result<Codec.FrontierManifest, Codec.ManifestError>)
    requires state.Valid()
    ensures r.Ok? <==> Codec.ValidManifest(ManifestOf(state.View(), generatorVersion, quadrantSizeMm))
    ensures r.Ok? ==> r.value == ManifestOf(state.View(), generatorVersion, quadrantSizeMm)
  {
    var manifest := Codec.FrontierManifest(Codec.VERSION, generatorVersion, quadrantSizeMm, state.revision,
                                           SortedCoords(state.revealed));
    var valid := Codec.Validate(manifest);
    r := match valid case Ok(_) => Ok(manifest) case Err(e) => Err(e);
  }

  class FrontierRuntime {
    const state: FrontierState
    const preparations: QuadrantPreparationState
    const generatorVersion: u32
    const quadrantSizeMm: i64

    ghost function View(): RuntimeView
      reads state, preparations
    {
      RuntimeView(state.View(), preparations.slots)
    }

    ghost predicate Valid()
      reads state, preparations
    {
      && state.Valid() && Invariant(View())
      && generatorVersion != 0 && 0 < quadrantSizeMm
    }

    constructor Assemble(state: FrontierState, preparations: QuadrantPreparationState, generatorVersion: u32,
                         quadrantSizeMm: i64)
      ensures this.state == state && this.preparations == preparations
      ensures this.generatorVersion == generatorVersion && this.quadrantSizeMm == quadrantSizeMm
    {
      this.state, this.preparations := state, preparations;
      this.generatorVersion, this.quadrantSizeMm := generatorVersion, quadrantSizeMm;
    }

    /** A runtime over an initial rectangle, or the reason the rectangle is refused. */
    static method New(initial: InitialFrontier, revision: u64, generatorVersion: u32, quadrantSizeMm: i64)
      returns (r: Result<FrontierRuntime, RuntimeError>)
      requires IsRectangular(initial)
      ensures r.Ok? <==> revision != 0 && (forall c :: c in initial.quadrants ==> !AtEdge(c))
                         && generatorVersion != 0 && 0 < quadrantSizeMm
      ensures r.Ok? ==> r.value.Valid() && fresh(r.value) && fresh(r.value.state) && fresh(r.value.preparations)
                        && r.value.View().frontier.revealed == initial.quadrants
                        && r.value.View().frontier.revision == revision && r.value.View().slots == map[]
    {
      if revision == 0 {
        return Err(FrontierInitialization(ZeroRevision));
      }
      var state := new FrontierState.FromInitial(initial, revision);
      var derived := DeriveCandidateFrontier(state);
      if derived.Err? {
        return Err(InitialDerivation(derived.error));
      }
      InitialInvariant(initial, revision, state.View(), derived.value);
      ManifestValidIff(state.View(), generatorVersion, quadrantSizeMm);
      var manifest := BuildManifest(state, generatorVersion, quadrantSizeMm);
      if manifest.Err? {
        return Err(InvalidManifest(manifest.error));
      }
      var preparations := new QuadrantPreparationState();
      var runtime := new FrontierRuntime.Assemble(state, preparations, generatorVersion, quadrantSizeMm);
      r := Ok(runtime);
    }

    /** The revealed quadrants in the manifest's order. */
    ghost function RevealedCoords(): seq<Coord>
      requires state.Valid()
      reads state
    {
      SortedCoords(state.revealed)
    }

    /** The current manifest; in a valid runtime there always is one. */
    method Manifest() returns (r: Result<Codec.FrontierManifest, Codec.ManifestError>)
      requires Valid()
      ensures r == Ok(ManifestOf(View().frontier, generatorVersion, quadrantSizeMm))
    {
      ManifestValidIff(state.View(), generatorVersion, quadrantSizeMm);
      r := BuildManifest(state, generatorVersion, quadrantSizeMm);
    }

    method RequestPreparation(id: Identity) returns (r: Result<RequestOutcome, RuntimeError>)
      requires Valid()
      modifies preparations
      ensures Valid()
      ensures id.generatorVersion != generatorVersion ==> r.Err? && r.error.GeneratorMismatch?
      ensures r.Ok? <==> id.generatorVersion == generatorVersion
                         && Requested(old(View()).slots, old(View()).frontier, id).Ok?
      ensures r.Err? ==> View() == old(View())
      ensures r.Ok? ==> Acts(old(View()), Request(id), View())
                        && r.value == Requested(old(View()).slots, old(View()).frontier, id).value.0
    {
      if id.generatorVersion != generatorVersion {
        return Err(GeneratorMismatch(id.generatorVersion, generatorVersion));
      }
      var outcome := preparations.Request(state, id);
      if outcome.Err? {
        return Err(Preparation(outcome.error));
      }
      ActsKeepsInvariant(old(View()), Request(id), View());
      r := Ok(outcome.value);
    }

    method CompletePreparation(artifact: Artifact) returns (r: Result<CompletionOutcome, RuntimeError>)
      requires Valid()
      modifies state, preparations
      ensures Valid()
      ensures artifact.identity.generatorVersion != generatorVersion ==> r.Err? && r.error.GeneratorMismatch?
      ensures r.Ok? <==> artifact.identity.generatorVersion == generatorVersion
                         && Finished(old(View()).slots, old(View()).frontier, artifact).Ok?
      ensures r.Err? ==> View() == old(View())
      ensures r.Ok? ==> Acts(old(View()), Finish(artifact), View())
                        && r.value == Finished(old(View()).slots, old(View()).frontier, artifact).value.0
    {
      if artifact.identity.generatorVersion != generatorVersion {
        return Err(GeneratorMismatch(artifact.identity.generatorVersion, generatorVersion));
      }
      var outcome := preparations.Complete(state, artifact);
      if outcome.Err? {
        return Err(Preparation(outcome.error));
      }
      ActsKeepsInvariant(old(View()), Finish(artifact), View());
      r := Ok(outcome.value);
    }

    /** Cancelling and failing are the same operation on the slots. */
    method AbandonPreparation(id: Identity) returns (r: Result<AbandonOutcome, RuntimeError>)
      requires Valid()
      modifies preparations
      ensures Valid()
      ensures id.generatorVersion != generatorVersion ==> r.Err? && r.error.GeneratorMismatch?
      ensures r.Ok? <==> id.generatorVersion == generatorVersion && Abandoned(old(View()).slots, id).Ok?
      ensures r.Err? ==> View() == old(View())
      ensures r.Ok? ==> Acts(old(View()), Abandon(id), View())
                        && r.value == Abandoned(old(View()).slots, id).value.0
    {
      if id.generatorVersion != generatorVersion {
        return Err(GeneratorMismatch(id.generatorVersion, generatorVersion));
      }
      var outcome := preparations.Abandon(id);
      if outcome.Err? {
        return Err(Preparation(outcome.error));
      }
      ActsKeepsInvariant(old(View()), Abandon(id), View());
      r := Ok(outcome.value);
    }

    method CommitReveal(u: UnlockRequirements, resolve: Resolver) returns (r: Result<RevealOutcome, RuntimeError>)
      requires Valid()
      modifies state
      ensures Valid()
      ensures r.Ok? && r.value.Opened? ==>
                Acts(old(View()), Reveal(u.coord, r.value.transition, r.value.derived), View())
      ensures !(r.Ok? && r.value.Opened?) ==> View() == old(View())
      ensures r.Ok? && r.value.Opened? <==> Opens(old(state.View()), u, resolve)
    {
      var outcome := CommitAuthoritativeReveal(state, u, resolve);
      if outcome.Err? {
        return Err(RevealTransaction(outcome.error));
      }
      if outcome.value.Opened? {
        assert state.View().revealed == old(state.View()).revealed + [u.coord];
        ActsKeepsInvariant(old(View()), Reveal(u.coord, outcome.value.transition, outcome.value.derived), View());
      }
      r := Ok(outcome.value);
    }
  }
}
