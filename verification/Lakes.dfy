/** Lakes: one candidate per region, found by looking at three regions each way
    (crates/terrain/src/hydrology.rs). */
module Lakes {
  import opened MachineInts
  import opened HydrologyField

  const REGION_SIDE: int := 48
  const HALF_REGION: int := 24
  const BASIN_DEPTH_MM: int := 2000

  datatype Lake = Lake(centerX: i64, centerY: i64, radius: i64, surface: i32, hash: u64)

  function CheckedSum(region: i64, offset: int): Option<i64> {
    if !InI64(region * REGION_SIDE) then None
    else if !InI64(region * REGION_SIDE + HALF_REGION) then None
    else if !InI64(region * REGION_SIDE + HALF_REGION + offset) then None
    else Some(region * REGION_SIDE + HALF_REGION + offset)
  }

  /** The lake of a region, if its hash draws one and its centre is a lattice point. */
  function LakeAt(f: Field, regionX: i64, regionY: i64): Option<Lake> {
    var hash := f.lakeHash(regionX, regionY);
    if hash % 4 != 0 then None
    else
      match (CheckedSum(regionX, SignedBucket(hash / P8, -16, 16)),
             CheckedSum(regionY, SignedBucket(hash / P16, -16, 16)))
      case (Some(x), Some(y)) => Some(Lake(x, y, 5 + hash / P32 % 7, -2000 + hash / P40 % 4001, hash))
      case _ => None
  }

  function DistanceSquared(lake: Lake, x: i64, y: i64): int {
    (x - lake.centerX) * (x - lake.centerX) + (y - lake.centerY) * (y - lake.centerY)
  }

  /** The lake of this region covers the point. */
  predicate Covers(f: Field, regionX: i64, regionY: i64, x: i64, y: i64) {
    var lake := LakeAt(f, regionX, regionY);
    lake.Some? && DistanceSquared(lake.value, x, y) <= lake.value.radius * lake.value.radius
  }

  /** Order among covering regions: by distance, then hash, then region row, then region column. */
  predicate Precedes(f: Field, x: i64, y: i64, x1: i64, y1: i64, x2: i64, y2: i64)
    requires LakeAt(f, x1, y1).Some? && LakeAt(f, x2, y2).Some?
  {
    var (a, b) := (LakeAt(f, x1, y1).value, LakeAt(f, x2, y2).value);
    var (da, db) := (DistanceSquared(a, x, y), DistanceSquared(b, x, y));
    da < db || (da == db && (a.hash < b.hash || (a.hash == b.hash && (y1 < y2 || (y1 == y2 && x1 < x2)))))
  }

  /** `r` is the lake of the unbounded search: the first, among all regions of the plane whose lake
      covers the point. */
  ghost predicate SelectedFromPlane(f: Field, x: i64, y: i64, r: Option<Lake>) {
    match r
    case None => forall rx: i64, ry: i64 :: !Covers(f, rx, ry, x, y)
    case Some(lake) =>
      exists rx: i64, ry: i64 :: Covers(f, rx, ry, x, y) && r == LakeAt(f, rx, ry) && FirstOfPlane(f, x, y, rx, ry)
  }

  ghost predicate FirstOfPlane(f: Field, x: i64, y: i64, rx: i64, ry: i64)
    requires LakeAt(f, rx, ry).Some?
  {
    forall ox: i64, oy: i64 :: Covers(f, ox, oy, x, y) && (ox != rx || oy != ry) ==> Precedes(f, x, y, rx, ry, ox, oy)
  }

  lemma PrecedesAsymmetric(f: Field, x: i64, y: i64, x1: i64, y1: i64, x2: i64, y2: i64)
    requires LakeAt(f, x1, y1).Some? && LakeAt(f, x2, y2).Some?
    ensures !(Precedes(f, x, y, x1, y1, x2, y2) && Precedes(f, x, y, x2, y2, x1, y1))
  {
  }

  /** The unbounded search has one answer. */
  lemma SelectionUnique(f: Field, x: i64, y: i64, r: Option<Lake>, s: Option<Lake>)
    requires SelectedFromPlane(f, x, y, r) && SelectedFromPlane(f, x, y, s)
    ensures r == s
  {
    if r.Some? && s.Some? {
      var x1: i64, y1: i64 :| Covers(f, x1, y1, x, y) && r == LakeAt(f, x1, y1) && FirstOfPlane(f, x, y, x1, y1);
      var x2: i64, y2: i64 :| Covers(f, x2, y2, x, y) && s == LakeAt(f, x2, y2) && FirstOfPlane(f, x, y, x2, y2);
      PrecedesAsymmetric(f, x, y, x1, y1, x2, y2);
    }
  }

  lemma SquareGrows(a: int, b: int)
    ensures 0 <= a <= b ==> a * a <= b * b
  {
    if 0 <= a <= b {
      assert a * a <= a * b <= b * b;
    }
  }

  lemma SquareWithin(d: int, r: int)
    requires 0 <= r && d * d <= r * r
    ensures -r <= d <= r
  {
    SquareGrows(r + 1, d);
    SquareGrows(r + 1, -d);
    assert (-d) * (-d) == d * d;
    assert (r + 1) * (r + 1) == r * r + 2 * r + 1;
  }

  /** A centre keeps 8 points from its region's edge, and a radius is at most 11. */
  lemma LakeShape(f: Field, regionX: i64, regionY: i64)
    requires LakeAt(f, regionX, regionY).Some?
    ensures var lake := LakeAt(f, regionX, regionY).value;
            && 8 <= lake.centerX - regionX * REGION_SIDE <= 40
            && 8 <= lake.centerY - regionY * REGION_SIDE <= 40
            && 5 <= lake.radius <= 11
  {
  }

  /** So a lake reaches at most one region beyond its own. */
  lemma CoveringLakeIsNear(f: Field, regionX: i64, regionY: i64, x: i64, y: i64)
    requires Covers(f, regionX, regionY, x, y)
    ensures x / REGION_SIDE - 1 <= regionX <= x / REGION_SIDE + 1
    ensures y / REGION_SIDE - 1 <= regionY <= y / REGION_SIDE + 1
  {
    LakeShape(f, regionX, regionY);
    var lake := LakeAt(f, regionX, regionY).value;
    WithinRadius(x - lake.centerX, y - lake.centerY, lake.radius);
    NearCenterIsNearRegion(x, regionX, lake.centerX - regionX * REGION_SIDE, lake.radius);
    NearCenterIsNearRegion(y, regionY, lake.centerY - regionY * REGION_SIDE, lake.radius);
  }

  lemma WithinRadius(dx: int, dy: int, r: int)
    requires 0 <= r && dx * dx + dy * dy <= r * r
    ensures -r <= dx <= r && -r <= dy <= r
  {
    assert dx * dx >= 0 && dy * dy >= 0;
    SquareWithin(dx, r);
    SquareWithin(dy, r);
  }

  lemma NearCenterIsNearRegion(x: int, region: int, offset: int, radius: int)
    requires 8 <= offset <= 40 && 0 <= radius <= 11
    requires -radius <= x - (region * REGION_SIDE + offset) <= radius
    ensures x / REGION_SIDE - 1 <= region <= x / REGION_SIDE + 1
  {
  }

  // ----- The search -----

  /** The regions looked at before `(cx, cy)`, row by row, in the window around `(rx, ry)`. */
  predicate Visited(rx: int, ry: int, cx: int, cy: int, ox: int, oy: int) {
    rx - 1 <= ox <= rx + 1 && ry - 1 <= oy <= ry + 1 && (oy < cy || (oy == cy && ox < cx))
  }

  /** The best region so far is the first covering one among those visited. */
  ghost predicate BestSoFar(f: Field, x: i64, y: i64, rx: int, ry: int, cx: int, cy: int, best: Option<(i64, i64)>) {
    match best
    case None => forall ox: i64, oy: i64 :: Visited(rx, ry, cx, cy, ox, oy) ==> !Covers(f, ox, oy, x, y)
    case Some((x2, y2)) =>
      && Covers(f, x2, y2, x, y) && Visited(rx, ry, cx, cy, x2, y2)
      && forall ox: i64, oy: i64 ::
           Visited(rx, ry, cx, cy, ox, oy) && Covers(f, ox, oy, x, y) && (ox != x2 || oy != y2) ==>
             Precedes(f, x, y, x2, y2, ox, oy)
  }

  /** Looking at one more region keeps the best, unless the new one is strictly nearer, or as near
      with a smaller hash. */
  predicate Better(f: Field, x: i64, y: i64, cx: i64, cy: i64, best: Option<(i64, i64)>)
    requires best.Some? ==> LakeAt(f, best.value.0, best.value.1).Some?
  {
    Covers(f, cx, cy, x, y)
    && (best.None?
        || var (c, b) := (LakeAt(f, cx, cy).value, LakeAt(f, best.value.0, best.value.1).value);
           DistanceSquared(c, x, y) < DistanceSquared(b, x, y)
           || (DistanceSquared(c, x, y) == DistanceSquared(b, x, y) && c.hash < b.hash))
  }

  lemma VisitRegion(f: Field, x: i64, y: i64, rx: int, ry: int, cx: i64, cy: i64, best: Option<(i64, i64)>)
    requires rx - 1 <= cx <= rx + 1 && ry - 1 <= cy <= ry + 1
    requires BestSoFar(f, x, y, rx, ry, cx, cy, best)
    ensures BestSoFar(f, x, y, rx, ry, cx + 1, cy, if Better(f, x, y, cx, cy, best) then Some((cx, cy)) else best)
  {
    forall ox: i64, oy: i64 | Visited(rx, ry, cx + 1, cy, ox, oy)
      ensures (ox == cx && oy == cy) || Visited(rx, ry, cx, cy, ox, oy)
    {
    }
  }

  /** The nine regions around a point give the answer of the whole plane. */
  lemma NineRegionsSuffice(f: Field, x: i64, y: i64, best: Option<(i64, i64)>)
    requires BestSoFar(f, x, y, x / REGION_SIDE, y / REGION_SIDE, x / REGION_SIDE - 1, y / REGION_SIDE + 2, best)
    ensures SelectedFromPlane(f, x, y, if best.None? then None else LakeAt(f, best.value.0, best.value.1))
  {
    forall ox: i64, oy: i64 | Covers(f, ox, oy, x, y)
      ensures Visited(x / REGION_SIDE, y / REGION_SIDE, x / REGION_SIDE - 1, y / REGION_SIDE + 2, ox, oy)
    {
      CoveringLakeIsNear(f, ox, oy, x, y);
    }
    if best.Some? {
      var (x2, y2) := best.value;
      assert FirstOfPlane(f, x, y, x2, y2);
    }
  }

  /** The region visited in step `n`. */
  function StepX(x: i64, n: nat): i64 { x / REGION_SIDE - 1 + n % 3 }
  function StepY(y: i64, n: nat): i64
    requires n < 9
  {
    y / REGION_SIDE - 1 + n / 3
  }

  /** The best of the first `n` regions of the search. */
  function BestOf(f: Field, x: i64, y: i64, n: nat): (best: Option<(i64, i64)>)
    requires n <= 9
    ensures best.Some? ==> LakeAt(f, best.value.0, best.value.1).Some?
  {
    if n == 0 then None
    else
      var before := BestOf(f, x, y, n - 1);
      if Better(f, x, y, StepX(x, n - 1), StepY(y, n - 1), before)
      then Some((StepX(x, n - 1), StepY(y, n - 1))) else before
  }

  /** The best after `n` steps is the best before the region of step `n`. */
  ghost predicate FirstOfSteps(f: Field, x: i64, y: i64, n: nat, best: Option<(i64, i64)>) {
    BestSoFar(f, x, y, x / REGION_SIDE, y / REGION_SIDE, x / REGION_SIDE - 1 + n % 3, y / REGION_SIDE - 1 + n / 3, best)
  }

  lemma NextStep(f: Field, x: i64, y: i64, n: nat, best: Option<(i64, i64)>)
    requires n < 9
    requires BestSoFar(f, x, y, x / REGION_SIDE, y / REGION_SIDE, StepX(x, n) + 1, StepY(y, n), best)
    ensures FirstOfSteps(f, x, y, n + 1, best)
  {
    if n % 3 == 2 {
      RowDone(f, x, y, x / REGION_SIDE, y / REGION_SIDE, StepY(y, n), best);
      assert (n + 1) % 3 == 0 && (n + 1) / 3 == n / 3 + 1;
    } else {
      assert (n + 1) % 3 == n % 3 + 1 && (n + 1) / 3 == n / 3;
    }
  }

  lemma VisitStep(f: Field, x: i64, y: i64, n: nat, before: Option<(i64, i64)>)
    requires n < 9 && FirstOfSteps(f, x, y, n, before)
    ensures FirstOfSteps(f, x, y, n + 1,
              if Better(f, x, y, StepX(x, n), StepY(y, n), before) then Some((StepX(x, n), StepY(y, n))) else before)
  {
    VisitRegion(f, x, y, x / REGION_SIDE, y / REGION_SIDE, StepX(x, n), StepY(y, n), before);
    NextStep(f, x, y, n,
      if Better(f, x, y, StepX(x, n), StepY(y, n), before) then Some((StepX(x, n), StepY(y, n))) else before);
  }

  lemma {:induction false} BestOfIsFirst(f: Field, x: i64, y: i64, n: nat)
    requires n <= 9
    ensures FirstOfSteps(f, x, y, n, BestOf(f, x, y, n))
  {
    if n > 0 {
      BestOfIsFirst(f, x, y, n - 1);
      VisitStep(f, x, y, n - 1, BestOf(f, x, y, n - 1));
    }
  }

  /** The lake at a point. */
  function LakeOf(f: Field, x: i64, y: i64): Option<Lake> {
    var best := BestOf(f, x, y, 9);
    if best.None? then None else LakeAt(f, best.value.0, best.value.1)
  }

  lemma LakeOfIsSelected(f: Field, x: i64, y: i64)
    ensures SelectedFromPlane(f, x, y, LakeOf(f, x, y))
  {
    BestOfIsFirst(f, x, y, 9);
    NineRegionsSuffice(f, x, y, BestOf(f, x, y, 9));
  }

  /** Compares the lake of one region with the best so far. */
  method Consider(f: Field, x: i64, y: i64, cx: i64, cy: i64, best: Option<Lake>, ghost at: Option<(i64, i64)>)
    returns (r: Option<Lake>)
    requires at.Some? ==> Covers(f, at.value.0, at.value.1, x, y)
    requires best == if at.None? then None else LakeAt(f, at.value.0, at.value.1)
    ensures r == if Better(f, x, y, cx, cy, at) then LakeAt(f, cx, cy) else best
  {
    r := best;
    var candidate := LakeAt(f, cx, cy);
    if candidate.Some? {
      var distance := DistanceSquared(candidate.value, x, y);
      if distance <= candidate.value.radius * candidate.value.radius {
        if best.None? || distance < DistanceSquared(best.value, x, y)
           || (distance == DistanceSquared(best.value, x, y) && candidate.value.hash < best.value.hash)
        {
          r := candidate;
        }
      }
    }
  }

  /** The search of the code: three rows of three regions, replacing only a strictly worse best. */
  method SelectLake(f: Field, x: i64, y: i64) returns (r: Option<Lake>)
    ensures SelectedFromPlane(f, x, y, r) && r == LakeOf(f, x, y)
  {
    var regionX, regionY := x / REGION_SIDE, y / REGION_SIDE;
    var west, east: int := Saturated(regionX - 1), Saturated(regionX + 1);
    var south, north: int := Saturated(regionY - 1), Saturated(regionY + 1);
    r := None;
    ghost var at: Option<(i64, i64)> := None;
    var candidateY := south;
    while candidateY <= north
      invariant regionY - 1 <= candidateY <= regionY + 2
      invariant BestSoFar(f, x, y, regionX, regionY, regionX - 1, candidateY, at)
      invariant r == if at.None? then None else LakeAt(f, at.value.0, at.value.1)
    {
      var candidateX := west;
      while candidateX <= east
        invariant regionX - 1 <= candidateX <= regionX + 2
        invariant BestSoFar(f, x, y, regionX, regionY, candidateX, candidateY, at)
        invariant r == if at.None? then None else LakeAt(f, at.value.0, at.value.1)
      {
        VisitRegion(f, x, y, regionX, regionY, candidateX, candidateY, at);
        r := Consider(f, x, y, candidateX, candidateY, r, at);
        at := if Better(f, x, y, candidateX, candidateY, at) then Some((candidateX, candidateY)) else at;
        candidateX := candidateX + 1;
      }
      RowDone(f, x, y, regionX, regionY, candidateY, at);
      candidateY := candidateY + 1;
    }
    NineRegionsSuffice(f, x, y, at);
    LakeOfIsSelected(f, x, y);
    SelectionUnique(f, x, y, r, LakeOf(f, x, y));
  }

  lemma RowDone(f: Field, x: i64, y: i64, rx: int, ry: int, cy: int, best: Option<(i64, i64)>)
    requires BestSoFar(f, x, y, rx, ry, rx + 2, cy, best)
    ensures BestSoFar(f, x, y, rx, ry, rx - 1, cy + 1, best)
  {
  }
}
