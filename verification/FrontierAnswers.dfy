/** The answers of the frontier's small machines, told as histories: what a quadrant's phases, a preparation
    slot and a connection's barrier answer to each call in each situation (crates/domain/src/frontier.rs,
    quadrant_preparation.rs, apps/world-server/src/frontier_sync.rs). */
module FrontierAnswers {
  import opened MachineInts
  import opened Lattice
  import opened Frontier
  import opened QuadrantPreparation
  import opened FrontierSync

  // ----- The phases of a quadrant -----

  function Rank(p: Phase): nat {
    match p
    case Potential => 0
    case Candidate => 1
    case Prepared => 2
    case Revealed => 3
  }

  /** Standing still succeeds and changes nothing, one phase forward succeeds, and every other move is refused
      by name.  Only a reveal has two more refusals: a full region first, and the last revision. */
  lemma TransitionAnswers(f: FrontierView, c: Coord, target: Phase)
    requires f.WellFormed()
    ensures var r := Transitioned(f, c, target);
            var distance := Rank(target) - Rank(f.PhaseOf(c));
            var opening := distance == 1 && target == Revealed;
            && (r == Ok((None, f)) <==> distance == 0)
            && (r == Err(InvalidTransition(c, f.PhaseOf(c), target)) <==> distance !in {0, 1})
            && (r == Err(CapacityExceeded) <==> opening && |f.revealed| == 65535)
            && (r == Err(RevisionOverflow) <==>
                  opening && |f.revealed| < 65535 && f.revision == 0xFFFF_FFFF_FFFF_FFFF)
            && (r.Ok? && r.value.0.Some? <==>
                  distance == 1 && (opening ==> |f.revealed| < 65535 && f.revision < 0xFFFF_FFFF_FFFF_FFFF))
            && (r.Ok? && r.value.0.Some? ==>
                  r.value.0.value == TransitionRecord(c, f.PhaseOf(c), target, f.revision, r.value.1.revision))
  {
  }

  // ----- A preparation slot -----

  /** A free Candidate's slot through its life: it is taken once, by one identity, which alone may ask
      again, finish or abandon it; the artifact that finishes it stays, and no other replaces it. */
  lemma SlotLifecycle(slots: Slots, f: FrontierView, artifact: Artifact, other: Identity, rival: Artifact)
    requires f.WellFormed() && f.PhaseOf(artifact.identity.coord) == Candidate && artifact.identity.coord !in slots
    requires other.coord == artifact.identity.coord && other != artifact.identity
    requires rival.identity == artifact.identity && rival != artifact
    ensures var (id, c) := (artifact.identity, artifact.identity.coord);
            var begun := slots[c := InFlight(id)];
            var ready := slots[c := Ready(artifact)];
            var prepared := f.(lifecycle := f.lifecycle[c := Prepared]);
            && Requested(slots, f, id) == Ok((Started, begun))
            && Finished(slots, f, artifact) == Err(CompletionWithoutRequest(c))
            && Abandoned(slots, id) == Ok((NotFound, slots))
            && Requested(begun, f, id) == Ok((AlreadyInFlight, begun))
            && Abandoned(begun, id) == Ok((Removed, slots))
            && Finished(begun, f, artifact)
                 == Ok((Completed(TransitionRecord(c, Candidate, Prepared, f.revision, f.revision)), ready, prepared))
            && Requested(ready, prepared, id) == Ok((AlreadyReady, ready))
            && Finished(ready, prepared, artifact) == Ok((CompletedBefore, ready, prepared))
            && Finished(ready, prepared, rival) == Err(ConflictingArtifact(c))
            && Abandoned(ready, id) == Ok((KeptReady, ready))
            && ReadyArtifact(ready, id) == Some(artifact)
            && (forall taken :: taken in [begun, ready] ==>
                  && Requested(taken, f, other) == Err(ConflictingIdentity(c))
                  && Finished(taken, f, artifact.(identity := other)) == Err(ConflictingIdentity(c))
                  && Abandoned(taken, other) == Err(ConflictingIdentity(c))
                  && ReadyArtifact(taken, other) == None)
            && ReadyArtifact(begun, id) == None
  {
    var (id, c) := (artifact.identity, artifact.identity.coord);
    assert slots[c := InFlight(id)][c := Ready(artifact)] == slots[c := Ready(artifact)];
    AbandonUndoesRequest(slots, f, id);
  }

  /** A request succeeds exactly for the owner of the slot or for a free Candidate, whatever the slots. */
  lemma RequestSucceedsIff(slots: Slots, f: FrontierView, id: Identity)
    ensures Requested(slots, f, id).Ok? <==>
              if id.coord in slots then slots[id.coord].Owner() == id else f.PhaseOf(id.coord) == Candidate
    ensures id.coord !in slots && f.PhaseOf(id.coord) != Candidate ==>
              Requested(slots, f, id) == Err(FrontierNotCandidate(id.coord, f.PhaseOf(id.coord)))
    ensures Abandoned(slots, id).Ok? <==> (id.coord in slots ==> slots[id.coord].Owner() == id)
  {
  }

  // ----- A connection's barrier -----

  /** A connection's barrier through its life: registered once, behind a revision; past it after the
      acknowledgement of that very revision; behind it again when all are marked; and gone when it is
      removed.  Other revisions, connections and zeros are refused by name and change nothing. */
  lemma BarrierLifecycle(sync: SyncMap, c: u64, revision: u64, next: u64, older: u64, newer: u64)
    requires c !in sync && 0 < older < revision < newer && 0 < next
    ensures var waiting := sync[c := Pending(revision)];
            var through := sync[c := Synced(revision)];
            var marked := AllPending(through, next);
            && RegisteredPending(sync, c, revision) == Ok(waiting)
            && RegisteredPending(sync, c, 0) == Err(ZeroSyncRevision)
            && Acked(sync, c, revision) == Err(UnknownSync(c))
            && Acked(waiting, c, revision) == Ok((Synchronized(revision), through))
            && Acked(through, c, revision) == Ok((DuplicateAck(revision), through))
            && (forall state :: state in [waiting, through] ==>
                  && RegisteredPending(state, c, next) == Err(DuplicateSync(c))
                  && Acked(state, c, older) == Ok((StaleAck(revision, older), state))
                  && Acked(state, c, newer) == Err(FutureAck(c, revision, newer))
                  && Acked(state, c, 0) == Err(ZeroSyncRevision))
            && marked.Keys == through.Keys && (forall d :: d in marked ==> marked[d] == Pending(next))
            && Acked(marked, c, next) == Ok((Synchronized(next), marked[c := Synced(next)]))
  {
    assert sync[c := Pending(revision)][c := Synced(revision)] == sync[c := Synced(revision)];
  }
}
