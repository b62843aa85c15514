/** The lifecycle of quadrants and the revealed region (crates/domain/src/frontier.rs). */
module Frontier {
  import opened MachineInts
  import opened Lattice

  const MAX_INITIAL_AXIS: u16 := 64
  const MAX_REVEALED: int := 65535

  datatype Phase = Potential | Candidate | Prepared | Revealed

  predicate CanBecome(from: Phase, to: Phase) {
    (from == Potential && to == Candidate) || (from == Candidate && to == Prepared)
    || (from == Prepared && to == Revealed)
  }

  /** The frontier's state as a value; a quadrant recorded nowhere is Potential. */
  datatype FrontierView = FrontierView(revision: u64, revealed: seq<Coord>, lifecycle: map<Coord, Phase>) {
    function PhaseOf(c: Coord): Phase {
      if c in revealed then Revealed else if c in lifecycle then lifecycle[c] else Potential
    }

    predicate WellFormed() {
      && revision != 0
      && NoDuplicates(revealed)
      && |revealed| <= MAX_REVEALED
      && (forall c :: c in lifecycle ==> lifecycle[c] in {Candidate, Prepared} && c !in revealed)
    }
  }

  datatype LifecycleError =
    | ZeroRevision
    | InvalidTransition(coord: Coord, from: Phase, to: Phase)
    | CapacityExceeded
    | RevisionOverflow

  datatype TransitionRecord =
    TransitionRecord(coord: Coord, from: Phase, to: Phase, previousRevision: u64, revision: u64)

  /** What one lifecycle transition does: `None` when the quadrant is already there. */
  function Transitioned(f: FrontierView, c: Coord, target: Phase)
    : Result<(Option<TransitionRecord>, FrontierView), LifecycleError>
  {
    var current := f.PhaseOf(c);
    if current == target then Ok((None, f))
    else if !CanBecome(current, target) then Err(InvalidTransition(c, current, target))
    else if target == Revealed then
      if |f.revealed| + 1 > MAX_REVEALED then Err(CapacityExceeded)
      else if f.revision == U64_MAX then Err(RevisionOverflow)
      else Ok((Some(TransitionRecord(c, current, target, f.revision, f.revision + 1)),
               FrontierView(f.revision + 1, f.revealed + [c], f.lifecycle - {c})))
    else
      Ok((Some(TransitionRecord(c, current, target, f.revision, f.revision)),
          f.(lifecycle := f.lifecycle[c := target])))
  }

  lemma TransitionKeepsWellFormed(f: FrontierView, c: Coord, target: Phase)
    requires f.WellFormed() && target != Potential && Transitioned(f, c, target).Ok?
    ensures Transitioned(f, c, target).value.1.WellFormed()
  {
  }

  /** A transition moves its quadrant one phase and no other; only a reveal touches the public
      revision, by exactly one. */
  lemma TransitionEffect(f: FrontierView, c: Coord, target: Phase, d: Coord)
    requires f.WellFormed() && Transitioned(f, c, target).Ok?
    ensures var after := Transitioned(f, c, target).value.1;
            && after.PhaseOf(d) == (if d == c then target else f.PhaseOf(d))
            && after.revision - f.revision == |after.revealed| - |f.revealed|
            && after.revision - f.revision == (if target == Revealed && f.PhaseOf(c) != Revealed then 1 else 0)
            && f.revealed <= after.revealed
  {
  }

  // ----- The initial rectangle -----

  /** `width` points eastward from `p`. */
  function Row(p: Point, width: nat): seq<Point> {
    if width == 0 then [] else Row(p, width - 1) + [Point(p.x + width - 1, p.y)]
  }

  function Rectangle(p: Point, width: nat, height: nat): seq<Point> {
    if height == 0 then [] else Rectangle(p, width, height - 1) + Row(Point(p.x, p.y + height - 1), width)
  }

  predicate InRectangle(q: Point, p: Point, width: nat, height: nat) {
    p.x <= q.x < p.x + width && p.y <= q.y < p.y + height
  }

  lemma {:induction false} RowPoints(p: Point, width: nat)
    ensures |Row(p, width)| == width
    ensures forall i :: 0 <= i < width ==> Row(p, width)[i] == Point(p.x + i, p.y)
    ensures forall q :: q in Row(p, width) <==> q.y == p.y && p.x <= q.x < p.x + width
    ensures RowMajor(Row(p, width))
  {
    if width > 0 {
      RowPoints(p, width - 1);
    }
  }

  lemma {:induction false} RectanglePoints(p: Point, width: nat, height: nat)
    ensures |Rectangle(p, width, height)| == width * height
    ensures forall q :: q in Rectangle(p, width, height) <==> InRectangle(q, p, width, height)
    ensures RowMajor(Rectangle(p, width, height))
  {
    if height > 0 {
      var below, row := Rectangle(p, width, height - 1), Row(Point(p.x, p.y + height - 1), width);
      RectanglePoints(p, width, height - 1);
      RowPoints(Point(p.x, p.y + height - 1), width);
      var all := below + row;
      assert width * height == width * (height - 1) + width;
      forall i, j | 0 <= i < j < |all|
        ensures Before(all[i], all[j])
      {
        if i < |below| && |below| <= j {
          assert all[i] in below && all[j] in row;
        }
      }
    }
  }

  /** A rectangle is connected by unit steps: from anywhere west to its edge, then south. */
  lemma {:induction false} RectangleLinked(p: Point, width: nat, height: nat, q: Point, inside: iset<Point>)
    requires InRectangle(q, p, width, height)
    requires inside == iset r | InRectangle(r, p, width, height)
    ensures Linked(inside, q, p)
    decreases q.x - p.x + (q.y - p.y)
  {
    if q == p {
      LinkedSelf(inside, p);
    } else {
      var next := if q.x > p.x then Point(q.x - 1, q.y) else Point(q.x, q.y - 1);
      LinkedStep(inside, q, next);
      RectangleLinked(p, width, height, next, inside);
      LinkedTransitive(inside, q, next, p);
    }
  }

  /** The revealed region as a set of lattice points. */
  ghost function Region(revealed: seq<Point>): iset<Point> {
    iset p | p in revealed
  }

  lemma RectangleConnected(p: Point, width: nat, height: nat)
    ensures Connected(Region(Rectangle(p, width, height)))
  {
    var inside := iset r | InRectangle(r, p, width, height);
    RectanglePoints(p, width, height);
    assert Region(Rectangle(p, width, height)) == inside;
    forall q | q in inside
      ensures Linked(inside, q, p)
    {
      RectangleLinked(p, width, height, q, inside);
    }
    HubConnects(inside, p);
  }

  datatype InitialError = EmptyDimension | DimensionTooLarge | CoordinateOverflow

  datatype InitialFrontier =
    InitialFrontier(minCoord: Coord, maxCoord: Coord, width: u16, height: u16, quadrants: seq<Coord>)

  ghost predicate IsRectangular(initial: InitialFrontier) {
    && 1 <= initial.width <= MAX_INITIAL_AXIS && 1 <= initial.height <= MAX_INITIAL_AXIS
    && initial.quadrants == Rectangle(initial.minCoord, initial.width, initial.height)
  }

  /** Row-major quadrants of a rectangle, or the reason there is none. */
  method Rectangular(minCoord: Coord, width: u16, height: u16) returns (r: Result<InitialFrontier, InitialError>)
    ensures r.Ok? <==> 1 <= width <= MAX_INITIAL_AXIS && 1 <= height <= MAX_INITIAL_AXIS
                       && InI64(minCoord.x + width - 1) && InI64(minCoord.y + height - 1)
    ensures r.Ok? ==> IsRectangular(r.value) && r.value.minCoord == minCoord
                      && r.value.width == width && r.value.height == height
  {
    if width == 0 || height == 0 {
      return Err(EmptyDimension);
    }
    if width > MAX_INITIAL_AXIS || height > MAX_INITIAL_AXIS {
      return Err(DimensionTooLarge);
    }
    if !InI64(minCoord.x + width - 1) || !InI64(minCoord.y + height - 1) {
      return Err(CoordinateOverflow);
    }
    var quadrants: seq<Coord> := [];
    for offsetY: int := 0 to height
      invariant quadrants == Rectangle(minCoord, width, offsetY)
    {
      var y: i64 := minCoord.y + offsetY;
      for offsetX: int := 0 to width
        invariant quadrants == Rectangle(minCoord, width, offsetY) + Row(Point(minCoord.x, y), offsetX)
      {
        quadrants := quadrants + [Point(minCoord.x + offsetX, y)];
      }
    }
    var maxCoord := Point(minCoord.x + width - 1, minCoord.y + height - 1);
    r := Ok(InitialFrontier(minCoord, maxCoord, width, height, quadrants));
  }

  /** Row-major sorting keeps coordinates coordinates. */
  function SortedCoords(s: seq<Coord>): (r: seq<Coord>)
    requires NoDuplicates(s)
    ensures RowMajor(r) && |r| == |s|
    ensures forall q :: q in r <==> q in s
  {
    var r := Sorted(s);
    assert forall i :: 0 <= i < |r| ==> r[i] in r && r[i] in s;
    r
  }

  lemma InitialWellFormed(initial: InitialFrontier, revision: u64)
    requires IsRectangular(initial) && revision != 0
    ensures FrontierView(revision, initial.quadrants, map[]).WellFormed()
  {
    RectanglePoints(initial.minCoord, initial.width, initial.height);
    RowMajorNoDuplicates(initial.quadrants);
    var w: int, h: int := initial.width, initial.height;
    assert w * h <= MAX_INITIAL_AXIS * MAX_INITIAL_AXIS by {
      ProductBounded(w, h, MAX_INITIAL_AXIS);
    }
  }

  lemma ProductBounded(a: nat, b: nat, bound: nat)
    requires a <= bound && b <= bound
    ensures a * b <= bound * bound
  {
    assert a * b <= bound * b;
    assert bound * b <= bound * bound;
  }

  // ----- The mutable state -----

  class FrontierState {
    var revision: u64
    var revealed: seq<Coord>
    var lookup: set<Coord>
    var lifecycle: map<Coord, Phase>

    function View(): FrontierView
      reads this
    {
      FrontierView(revision, revealed, lifecycle)
    }

    /** The lookup set holds exactly the revealed quadrants. */
    ghost predicate Valid()
      reads this
    {
      View().WellFormed() && lookup == Elements(revealed)
    }

    constructor FromInitial(initial: InitialFrontier, revision: u64)
      requires IsRectangular(initial) && revision != 0
      ensures Valid() && View() == FrontierView(revision, initial.quadrants, map[])
    {
      this.revision, revealed := revision, initial.quadrants;
      lookup := set c | c in initial.quadrants;
      lifecycle := map[];
      new;
      InitialWellFormed(initial, revision);
    }

    constructor CloneOf(other: FrontierState)
      requires other.Valid()
      ensures Valid() && View() == other.View()
    {
      revision, revealed, lookup, lifecycle := other.revision, other.revealed, other.lookup, other.lifecycle;
    }

    method Assign(other: FrontierState)
      requires other.Valid()
      modifies this
      ensures Valid() && View() == old(other.View())
    {
      revision, revealed, lookup, lifecycle := other.revision, other.revealed, other.lookup, other.lifecycle;
    }

    method State(c: Coord) returns (p: Phase)
      requires Valid()
      ensures p == View().PhaseOf(c)
    {
      if c in lookup {
        p := Revealed;
      } else if c in lifecycle {
        p := lifecycle[c];
      } else {
        p := Potential;
      }
    }

    /** The quadrants in one phase, in row-major order whatever the map order. */
    method QuadrantsInState(target: Phase) returns (r: seq<Coord>)
      requires Valid()
      ensures RowMajor(r)
      ensures forall c: Coord :: c in r <==> target != Potential && View().PhaseOf(c) == target
    {
      if target == Revealed {
        return SortedCoords(revealed);
      }
      var found: seq<Coord> := [];
      var left := lifecycle.Keys;
      while left != {}
        invariant left <= lifecycle.Keys
        invariant NoDuplicates(found) && forall c :: c in found ==> c !in left
        invariant forall c :: c in found <==> c in lifecycle && c !in left && lifecycle[c] == target
        decreases |left|
      {
        var c :| c in left;
        left := left - {c};
        if lifecycle[c] == target {
          found := found + [c];
        }
      }
      r := SortedCoords(found);
    }

    method Transition(c: Coord, target: Phase) returns (r: Result<Option<TransitionRecord>, LifecycleError>)
      requires Valid() && target != Potential
      modifies this
      ensures Valid()
      ensures match Transitioned(old(View()), c, target)
        case Ok((record, after)) => r == Ok(record) && View() == after
        case Err(e) => r == Err(e) && View() == old(View())
    {
      var current := State(c);
      if current == target {
        return Ok(None);
      }
      if !CanBecome(current, target) {
        return Err(InvalidTransition(c, current, target));
      }
      var previousRevision := revision;
      var nextRevision := revision;
      if target == Revealed {
        if |revealed| + 1 > MAX_REVEALED {
          return Err(CapacityExceeded);
        }
        if revision == U64_MAX {
          return Err(RevisionOverflow);
        }
        nextRevision := revision + 1;
        lifecycle := lifecycle - {c};
        lookup := lookup + {c};
        revealed := revealed + [c];
        revision := nextRevision;
      } else {
        lifecycle := lifecycle[c := target];
      }
      r := Ok(Some(TransitionRecord(c, current, target, previousRevision, nextRevision)));
    }
  }
}
