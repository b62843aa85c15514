/** The ring of candidates around the revealed region
    (crates/domain/src/candidate_frontier.rs). */
module CandidateFrontier {
  import opened MachineInts
  import opened Lattice
  import opened Frontier

  datatype DerivationError = NeighborOverflow(coord: Coord) | Lifecycle(error: LifecycleError)

  const DIRECTIONS: seq<Point> := [Point(-1, 0), Point(1, 0), Point(0, -1), Point(0, 1)]

  function Neighbor(c: Point, direction: Point): Point {
    Point(c.x + direction.x, c.y + direction.y)
  }

  /** Some neighbour of the quadrant leaves the 64-bit coordinates. */
  predicate AtEdge(c: Coord) {
    c.x == I64_MIN || c.x == I64_MAX || c.y == I64_MIN || c.y == I64_MAX
  }

  lemma NeighborsAreAdjacent(a: Point, b: Point)
    ensures Adjacent(a, b) <==> exists k :: 0 <= k < 4 && b == Neighbor(a, DIRECTIONS[k])
  {
    assert b == Neighbor(a, DIRECTIONS[0]) <==> b == Point(a.x - 1, a.y);
    assert b == Neighbor(a, DIRECTIONS[1]) <==> b == Point(a.x + 1, a.y);
    assert b == Neighbor(a, DIRECTIONS[2]) <==> b == Point(a.x, a.y - 1);
    assert b == Neighbor(a, DIRECTIONS[3]) <==> b == Point(a.x, a.y + 1);
  }

  ghost predicate TouchesRevealed(f: FrontierView, c: Coord) {
    exists r :: r in f.revealed && Adjacent(r, c)
  }

  /** The quadrants a derivation turns from Potential into Candidate. */
  ghost predicate NewCandidate(f: FrontierView, c: Coord) {
    f.PhaseOf(c) == Potential && TouchesRevealed(f, c)
  }

  /** `after` is `f` with exactly the new candidates marked. */
  ghost predicate Derives(f: FrontierView, after: FrontierView, marked: seq<Coord>) {
    && after.revision == f.revision && after.revealed == f.revealed
    && RowMajor(marked)
    && (forall c: Coord :: c in marked <==> NewCandidate(f, c))
    && (forall c: Coord :: c in after.lifecycle <==> c in f.lifecycle || c in marked)
    && (forall c: Coord :: c in after.lifecycle ==>
          after.lifecycle[c] == if c in marked then Candidate else f.lifecycle[c])
  }

  /** A derivation determines the outcome completely. */
  lemma DerivesUnique(f: FrontierView, a: FrontierView, b: FrontierView, ma: seq<Coord>, mb: seq<Coord>)
    requires Derives(f, a, ma) && Derives(f, b, mb)
    ensures ma == mb && a == b
  {
    forall p
      ensures p in ma <==> p in mb
    {
      if p in ma { var i :| 0 <= i < |ma| && ma[i] == p; assert NewCandidate(f, ma[i]); }
      if p in mb { var i :| 0 <= i < |mb| && mb[i] == p; assert NewCandidate(f, mb[i]); }
    }
    RowMajorUnique(ma, mb);
    assert a.lifecycle == b.lifecycle;
  }

  /** Collects the Potential neighbours of one revealed quadrant that were not collected before. */
  method CollectNeighbors(state: FrontierState, coord: Coord, before: seq<Coord>)
    returns (r: Result<seq<Coord>, DerivationError>)
    requires state.Valid() && NoDuplicates(before)
    ensures r.Ok? <==> !AtEdge(coord)
    ensures r.Err? ==> r.error == NeighborOverflow(coord)
    ensures r.Ok? ==> NoDuplicates(r.value)
    ensures r.Ok? ==> forall c: Coord :: c in r.value <==>
                        c in before || (Adjacent(coord, c) && state.View().PhaseOf(c) == Potential)
  {
    var found: seq<Coord> := before;
    for k := 0 to 4
      invariant NoDuplicates(found)
      invariant forall j :: 0 <= j < k ==> InRange(Neighbor(coord, DIRECTIONS[j]))
      invariant forall c: Coord :: c in found <==>
                  c in before
                  || (state.View().PhaseOf(c) == Potential
                      && exists j :: 0 <= j < k && c == Neighbor(coord, DIRECTIONS[j]))
    {
      var neighbor := Neighbor(coord, DIRECTIONS[k]);
      if !InRange(neighbor) {
        return Err(NeighborOverflow(coord));
      }
      var phase := state.State(neighbor);
      if phase == Potential && neighbor !in found {
        found := found + [neighbor];
      }
    }
    assert InRange(Neighbor(coord, DIRECTIONS[0])) && InRange(Neighbor(coord, DIRECTIONS[1]));
    assert InRange(Neighbor(coord, DIRECTIONS[2])) && InRange(Neighbor(coord, DIRECTIONS[3]));
    forall c: Coord
      ensures c in found <==> c in before || (Adjacent(coord, c) && state.View().PhaseOf(c) == Potential)
    {
      NeighborsAreAdjacent(coord, c);
    }
    r := Ok(found);
  }

  /** Marks every Potential neighbour of the revealed region, or changes nothing when the region
      touches the edge of the coordinates. */
  method DeriveCandidateFrontier(state: FrontierState) returns (r: Result<seq<Coord>, DerivationError>)
    requires state.Valid()
    modifies state
    ensures state.Valid()
    ensures r.Ok? <==> forall c :: c in old(state.revealed) ==> !AtEdge(c)
    ensures r.Err? ==> state.View() == old(state.View())
                       && r.error.NeighborOverflow? && r.error.coord in state.revealed && AtEdge(r.error.coord)
    ensures r.Ok? ==> Derives(old(state.View()), state.View(), r.value)
  {
    var revealed := state.revealed;
    ghost var before := state.View();
    var found: seq<Coord> := [];
    for i := 0 to |revealed|
      invariant state.View() == before && state.Valid()
      invariant NoDuplicates(found)
      invariant forall k :: 0 <= k < i ==> !AtEdge(revealed[k])
      invariant forall c :: c in found ==> NewCandidate(before, c)
      invariant forall k, c: Coord :: 0 <= k < i && Adjacent(revealed[k], c) && before.PhaseOf(c) == Potential ==>
                  c in found
    {
      var collected := CollectNeighbors(state, revealed[i], found);
      if collected.Err? {
        assert revealed[i] in revealed;
        return Err(collected.error);
      }
      found := collected.value;
    }
    var marked := SortedCoords(found);
    MarkedExactly(before, marked, found, revealed);
    MarkAll(state, marked);
    r := Ok(marked);
  }

  lemma MarkedExactly(f: FrontierView, marked: seq<Coord>, found: seq<Coord>, revealed: seq<Coord>)
    requires revealed == f.revealed
    requires forall p :: p in marked <==> p in found
    requires forall c :: c in found ==> NewCandidate(f, c)
    requires forall k, c: Coord :: 0 <= k < |revealed| && Adjacent(revealed[k], c) && f.PhaseOf(c) == Potential ==>
               c in found
    ensures forall c: Coord :: c in marked <==> NewCandidate(f, c)
  {
    forall c: Coord | NewCandidate(f, c)
      ensures c in marked
    {
      var r :| r in f.revealed && Adjacent(r, c);
      var k :| 0 <= k < |revealed| && revealed[k] == r;
    }
  }

  method MarkAll(state: FrontierState, marked: seq<Coord>)
    requires state.Valid() && RowMajor(marked)
    requires forall c :: c in marked ==> state.View().PhaseOf(c) == Potential
    modifies state
    ensures state.Valid()
    ensures state.revision == old(state.revision) && state.revealed == old(state.revealed)
    ensures forall c: Coord :: c in state.lifecycle <==> c in old(state.lifecycle) || c in marked
    ensures forall c: Coord :: c in state.lifecycle ==>
              state.lifecycle[c] == if c in marked then Candidate else old(state.lifecycle)[c]
  {
    ghost var before := state.View();
    for i := 0 to |marked|
      invariant state.Valid()
      invariant state.revision == before.revision && state.revealed == before.revealed
      invariant forall c: Coord :: c in state.lifecycle <==> c in before.lifecycle || c in marked[..i]
      invariant forall c: Coord :: c in state.lifecycle ==>
                  state.lifecycle[c] == if c in marked[..i] then Candidate else before.lifecycle[c]
    {
      assert marked[i] !in marked[..i];
      assert state.View().PhaseOf(marked[i]) == Potential by {
        assert marked[i] in marked;
        assert before.PhaseOf(marked[i]) == Potential;
      }
      var transition := state.Transition(marked[i], Candidate);
      assert marked[..i + 1] == marked[..i] + [marked[i]];
    }
    assert marked[..|marked|] == marked;
  }
}
