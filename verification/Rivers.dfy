/** Rivers: one per band, meandering between anchors (crates/terrain/src/hydrology.rs). */
module Rivers {
  import opened MachineInts
  import opened HydrologyField
  import opened Lattice
  import CarriedDivision

  const BAND: int := 96
  const HALF_BAND: int := 48
  const ANCHOR: int := 32
  const CHANNEL_DEPTH_MM: int := 1000

  datatype River = River(centerX: i64, halfWidth: i64, surface: i32, hash: u64)

  function AnchorOffset(f: Field, band: i64, anchor: i64): (o: int)
    ensures -12 <= o <= 12
  {
    SignedBucket(f.meanderHash(band, anchor) / P16, -12, 12)
  }

  /** Linear interpolation between two anchors, truncated towards zero. */
  function Interpolated(south: int, north: int, fraction: int): int {
    CarriedDivision.Quot(south * (ANCHOR - fraction) + north * fraction, ANCHOR)
  }

  /** The meander of a band at a row. */
  function Meander(f: Field, band: i64, y: i64): int {
    var anchor := y / ANCHOR;
    Interpolated(AnchorOffset(f, band, anchor), AnchorOffset(f, band, Saturated(anchor + 1)), y % ANCHOR)
  }

  /** Where the band's river would be centred without a meander, before clamping. */
  function BaseCenter(f: Field, band: i64): int {
    band * BAND + HALF_BAND + SignedBucket(f.bandHash(band) / P8, -16, 16)
  }

  function RiverAt(f: Field, band: i64, y: i64): River {
    var hash := f.bandHash(band);
    River(Saturated(Saturated(BaseCenter(f, band)) + Meander(f, band, y)),
          2 + hash / P24 % 3,
          Clamp(-1500 + hash / P32 % 3001 - y * 25, I32_MIN, I32_MAX),
          hash)
  }

  predicate Covers(f: Field, band: i64, x: i64, y: i64) {
    Abs(x - RiverAt(f, band, y).centerX) <= RiverAt(f, band, y).halfWidth
  }

  // ----- The shape of a river -----

  lemma ScaledOffset(offset: int, scale: nat)
    requires -12 <= offset <= 12
    ensures -12 * scale <= offset * scale <= 12 * scale
  {
  }

  lemma InterpolationBounded(south: int, north: int, fraction: int)
    requires -12 <= south <= 12 && -12 <= north <= 12 && 0 <= fraction <= ANCHOR
    ensures -12 <= Interpolated(south, north, fraction) <= 12
  {
    ScaledOffset(south, ANCHOR - fraction);
    ScaledOffset(north, fraction);
    BoundedQuotient(south * (ANCHOR - fraction) + north * fraction);
  }

  lemma BoundedQuotient(n: int)
    requires -12 * ANCHOR <= n <= 12 * ANCHOR
    ensures -12 <= CarriedDivision.Quot(n, ANCHOR) <= 12
  {
  }

  lemma MeanderBounded(f: Field, band: i64, y: i64)
    ensures -12 <= Meander(f, band, y) <= 12
  {
    InterpolationBounded(AnchorOffset(f, band, y / ANCHOR), AnchorOffset(f, band, Saturated(y / ANCHOR + 1)),
                         y % ANCHOR);
  }

  /** Numerators less than one divisor apart have quotients at most one apart. */
  lemma CloseQuotients(a: int, b: int)
    requires -ANCHOR < a - b < ANCHOR
    ensures -1 <= CarriedDivision.Quot(a, ANCHOR) - CarriedDivision.Quot(b, ANCHOR) <= 1
  {
  }

  lemma InterpolationStep(south: int, north: int, fraction: int)
    requires -12 <= south <= 12 && -12 <= north <= 12 && 0 <= fraction < ANCHOR
    ensures -1 <= Interpolated(south, north, fraction + 1) - Interpolated(south, north, fraction) <= 1
  {
    var a := south * (ANCHOR - fraction) + north * fraction;
    var b := south * (ANCHOR - (fraction + 1)) + north * (fraction + 1);
    assert b - a == north - south by {
      assert south * (ANCHOR - (fraction + 1)) == south * (ANCHOR - fraction) - south;
      assert north * (fraction + 1) == north * fraction + north;
    }
    CloseQuotients(b, a);
  }

  lemma InterpolationMeetsAnchor(south: int, north: int)
    ensures Interpolated(south, north, ANCHOR) == north && Interpolated(north, south, 0) == north
  {
    assert north * ANCHOR == ANCHOR * north;
  }

  lemma NextRow(y: int)
    ensures if y % ANCHOR == ANCHOR - 1 then (y + 1) / ANCHOR == y / ANCHOR + 1 && (y + 1) % ANCHOR == 0
            else (y + 1) / ANCHOR == y / ANCHOR && (y + 1) % ANCHOR == y % ANCHOR + 1
  {
  }

  /** From one row to the next the meander moves by at most one, also across an anchor. */
  lemma MeanderStep(f: Field, band: i64, y: i64)
    requires y < I64_MAX
    ensures -1 <= Meander(f, band, y + 1) - Meander(f, band, y) <= 1
  {
    var anchor := y / ANCHOR;
    var south, north := AnchorOffset(f, band, anchor), AnchorOffset(f, band, Saturated(anchor + 1));
    NextRow(y);
    InterpolationStep(south, north, y % ANCHOR);
    if y % ANCHOR == ANCHOR - 1 {
      InterpolationMeetsAnchor(south, north);
      InterpolationMeetsAnchor(AnchorOffset(f, band, Saturated(anchor + 2)), north);
    }
  }

  /** The clamped centre moves by at most one as well, wherever the band lies. */
  lemma CenterStep(f: Field, band: i64, y: i64)
    requires y < I64_MAX
    ensures -1 <= RiverAt(f, band, y + 1).centerX - RiverAt(f, band, y).centerX <= 1
    ensures RiverAt(f, band, y + 1).halfWidth == RiverAt(f, band, y).halfWidth >= 2
  {
    MeanderStep(f, band, y);
  }

  /** Water never runs uphill: the surface does not rise as y grows. */
  lemma SurfaceNeverRises(f: Field, band: i64, south: i64, north: i64)
    requires south <= north
    ensures RiverAt(f, band, north).surface <= RiverAt(f, band, south).surface
  {
  }

  // ----- The ribbon is connected -----

  ghost function Ribbon(f: Field, band: i64): iset<Point> {
    iset p | InRange(p) && Covers(f, band, p.x, p.y)
  }

  function CenterAt(f: Field, band: i64, y: i64): Point {
    Point(RiverAt(f, band, y).centerX, y)
  }

  lemma {:induction false} RowReachesCenter(f: Field, band: i64, p: Point)
    requires p in Ribbon(f, band)
    ensures Linked(Ribbon(f, band), p, CenterAt(f, band, p.y))
    decreases Abs(p.x - RiverAt(f, band, p.y).centerX)
  {
    var center := RiverAt(f, band, p.y).centerX;
    if p.x == center {
      LinkedSelf(Ribbon(f, band), p);
    } else {
      var next := Point(if p.x < center then p.x + 1 else p.x - 1, p.y);
      LinkedStep(Ribbon(f, band), p, next);
      RowReachesCenter(f, band, next);
      LinkedTransitive(Ribbon(f, band), p, next, CenterAt(f, band, p.y));
    }
  }

  lemma {:induction false} CenterReachesSouth(f: Field, band: i64, y: i64)
    ensures CenterAt(f, band, y) in Ribbon(f, band)
    ensures Linked(Ribbon(f, band), CenterAt(f, band, y), CenterAt(f, band, I64_MIN))
    decreases y - I64_MIN
  {
    var ribbon := Ribbon(f, band);
    var here := CenterAt(f, band, y);
    if y == I64_MIN {
      LinkedSelf(ribbon, here);
    } else {
      CenterStep(f, band, y - 1);
      var below := Point(here.x, y - 1);
      LinkedStep(ribbon, here, below);
      RowReachesCenter(f, band, below);
      CenterReachesSouth(f, band, y - 1);
      LinkedTransitive(ribbon, here, below, CenterAt(f, band, y - 1));
      LinkedTransitive(ribbon, here, CenterAt(f, band, y - 1), CenterAt(f, band, I64_MIN));
    }
  }

  /** Any two points of a river are joined by unit steps that stay in it. */
  lemma RibbonConnected(f: Field, band: i64)
    ensures Connected(Ribbon(f, band))
  {
    var hub := CenterAt(f, band, I64_MIN);
    forall p | p in Ribbon(f, band)
      ensures Linked(Ribbon(f, band), p, hub)
    {
      RowReachesCenter(f, band, p);
      CenterReachesSouth(f, band, p.y);
      LinkedTransitive(Ribbon(f, band), p, CenterAt(f, band, p.y), hub);
    }
    HubConnects(Ribbon(f, band), hub);
  }

  // ----- Bands do not overlap -----

  /** Far enough from the ends of the coordinates for no clamped river to reach. */
  predicate Inland(x: i64) { I64_MIN + 16 < x < I64_MAX - 16 }

  /** A river stays 16 points inside its band: 48 from its edge, less 16 of offset, 12 of meander
      and 4 of width. */
  lemma RiverStaysInBand(f: Field, band: i64, x: i64, y: i64)
    requires Inland(x) && Covers(f, band, x, y)
    ensures band == x / BAND
    ensures band * BAND + 16 <= x <= band * BAND + 80
  {
    MeanderBounded(f, band, y);
  }

  /** At most one river covers the point, in any world and row. */
  ghost predicate AtMostOneRiver(x: i64) {
    forall f: Field, y: i64, a: i64, b: i64 :: Covers(f, a, x, y) && Covers(f, b, x, y) ==> a == b
  }

  /** How many bands the search visits to either side of the point's own. */
  const REACH: nat := 1

  /** One of the three bands that the search for a point visits. */
  predicate Visited(x: i64, band: i64) { x / BAND - REACH <= band <= x / BAND + REACH }

  /** The same among the bands the search visits. */
  ghost predicate AtMostOneVisited(x: i64) {
    forall f: Field, y: i64, a: i64, b: i64 ::
      Visited(x, a) && Visited(x, b) && Covers(f, a, x, y) && Covers(f, b, x, y) ==> a == b
  }

  /** A world whose rivers all run at a constant distance from the clamped base: `o` in the band `far`,
      `near` in the others. */
  function ConstantWorld(far: i64, o: int, near: int): Field
    requires -12 <= o <= 12 && -12 <= near <= 12
  {
    Field((x, y) => 0, band => 2 * P24, (band, anchor) => ((if band == far then o else near) + 12) * P16)
  }

  lemma ConstantAnchor(far: i64, o: int, near: int, band: i64, anchor: i64)
    requires -12 <= o <= 12 && -12 <= near <= 12
    ensures AnchorOffset(ConstantWorld(far, o, near), band, anchor) == if band == far then o else near
  {
    var v := if band == far then o else near;
    assert (v + 12) * P16 / P16 == v + 12;
  }

  lemma InterpolatedConstant(v: int, fraction: int)
    ensures Interpolated(v, v, fraction) == v
  {
    assert v * (ANCHOR - fraction) + v * fraction == v * ANCHOR;
    assert CarriedDivision.Quot(v * ANCHOR, ANCHOR) == v;
  }

  lemma ConstantMeander(far: i64, o: int, near: int, band: i64, y: i64)
    requires -12 <= o <= 12 && -12 <= near <= 12
    ensures Meander(ConstantWorld(far, o, near), band, y) == if band == far then o else near
  {
    ConstantAnchor(far, o, near, band, y / ANCHOR);
    ConstantAnchor(far, o, near, band, Saturated(y / ANCHOR + 1));
    InterpolatedConstant(if band == far then o else near, y % ANCHOR);
  }

  lemma ConstantShape(far: i64, o: int, near: int, band: i64, y: i64)
    requires -12 <= o <= 12 && -12 <= near <= 12
    ensures RiverAt(ConstantWorld(far, o, near), band, y).halfWidth == 4
    ensures BaseCenter(ConstantWorld(far, o, near), band) == band * BAND + HALF_BAND + 13
    ensures RiverAt(ConstantWorld(far, o, near), band, y).centerX
              == Saturated(Saturated(band * BAND + HALF_BAND + 13) + (if band == far then o else near))
  {
    ConstantMeander(far, o, near, band, y);
    ConstantBase(far, o, near, band);
  }

  lemma ConstantBase(far: i64, o: int, near: int, band: i64)
    requires -12 <= o <= 12 && -12 <= near <= 12
    ensures BaseCenter(ConstantWorld(far, o, near), band) == band * BAND + HALF_BAND + 13
  {
    assert 2 * P24 / P8 == 2 * P16;
  }

  /** The offset from the clamped centre that comes nearest to a point at the end of the coordinates. */
  function EndOffset(x: i64): (o: int)
    requires !Inland(x)
    ensures -12 <= o <= 12
  {
    if x < 0 then Min(12, x - I64_MIN) else Max(-12, x - I64_MAX)
  }

  /** The band after the point's own, towards the nearer end of the coordinates. */
  function OuterBand(x: i64): i64 {
    if x < 0 then x / BAND - 1 else x / BAND + 1
  }

  lemma ClampedCenterIsNear(x: i64, band: i64)
    requires !Inland(x) && (band == x / BAND || band == OuterBand(x))
    ensures Abs(x - Saturated(Saturated(band * BAND + HALF_BAND + 13) + EndOffset(x))) <= 4
  {
  }

  /** At the ends the rivers of both bands are clamped to the last coordinate, and reach the point. */
  lemma OuterBandCovers(x: i64, band: i64)
    requires !Inland(x) && (band == x / BAND || band == OuterBand(x))
    ensures Covers(ConstantWorld(x / BAND, EndOffset(x), EndOffset(x)), band, x, 0)
  {
    ClampedCenterIsNear(x, band);
    ConstantShape(x / BAND, EndOffset(x), EndOffset(x), band, 0);
  }

  /** Exactly the inland points are covered by at most one river: within 16 points of either end
      of the coordinates, rivers of different bands are clamped onto each other, and the search
      visits two of them. */
  lemma AtMostOneRiverIffInland(x: i64)
    ensures AtMostOneRiver(x) <==> Inland(x)
    ensures AtMostOneVisited(x) <==> Inland(x)
  {
    if Inland(x) {
      forall f: Field, y: i64, a: i64, b: i64 | Covers(f, a, x, y) && Covers(f, b, x, y)
        ensures a == b
      {
        RiverStaysInBand(f, a, x, y);
        RiverStaysInBand(f, b, x, y);
      }
    } else {
      OuterBandCovers(x, x / BAND);
      OuterBandCovers(x, OuterBand(x));
      assert Visited(x, x / BAND) && Visited(x, OuterBand(x));
    }
  }

  // ----- The search -----

  predicate Precedes(f: Field, x: i64, y: i64, a: i64, b: i64) {
    var (da, db) := (Abs(x - RiverAt(f, a, y).centerX), Abs(x - RiverAt(f, b, y).centerX));
    da < db || (da == db && (RiverAt(f, a, y).hash < RiverAt(f, b, y).hash
                             || (RiverAt(f, a, y).hash == RiverAt(f, b, y).hash && a < b)))
  }

  /** `r` is the river of the search over all bands: the first that covers the point, by distance,
      hash and band. */
  ghost predicate SelectedFromAllBands(f: Field, x: i64, y: i64, r: Option<River>) {
    match r
    case None => forall band: i64 :: !Covers(f, band, x, y)
    case Some(river) =>
      exists band: i64 :: Covers(f, band, x, y) && river == RiverAt(f, band, y)
        && forall other: i64 :: Covers(f, other, x, y) && other != band ==> Precedes(f, x, y, band, other)
  }

  /** The best of the bands from `from` to `to`. */
  ghost predicate BestBand(f: Field, x: i64, y: i64, from: int, to: int, best: Option<i64>) {
    match best
    case None => forall band: i64 :: from <= band < to ==> !Covers(f, band, x, y)
    case Some(b) =>
      && from <= b < to && Covers(f, b, x, y)
      && forall other: i64 :: from <= other < to && Covers(f, other, x, y) && other != b ==> Precedes(f, x, y, b, other)
  }

  predicate Better(f: Field, x: i64, y: i64, band: i64, best: Option<i64>) {
    Covers(f, band, x, y)
    && (best.None?
        || var (d, e) := (Abs(x - RiverAt(f, band, y).centerX), Abs(x - RiverAt(f, best.value, y).centerX));
           d < e || (d == e && RiverAt(f, band, y).hash < RiverAt(f, best.value, y).hash))
  }

  lemma VisitBand(f: Field, x: i64, y: i64, from: int, band: i64, best: Option<i64>)
    requires from <= band && BestBand(f, x, y, from, band, best)
    ensures BestBand(f, x, y, from, band + 1, if Better(f, x, y, band, best) then Some(band) else best)
  {
  }

  lemma ThreeBandsSuffice(f: Field, x: i64, y: i64, best: Option<i64>)
    requires Inland(x) && BestBand(f, x, y, x / BAND - 1, x / BAND + 2, best)
    ensures SelectedFromAllBands(f, x, y, if best.None? then None else Some(RiverAt(f, best.value, y)))
    ensures best == if Covers(f, x / BAND, x, y) then Some(x / BAND) else None
  {
    forall band: i64 | Covers(f, band, x, y)
      ensures band == x / BAND
    {
      RiverStaysInBand(f, band, x, y);
    }
  }

  function BestFrom(f: Field, x: i64, y: i64, from: i64, count: nat): Option<i64>
    requires InI64(from + count)
  {
    if count == 0 then None
    else
      var before := BestFrom(f, x, y, from, count - 1);
      if Better(f, x, y, from + count - 1, before) then Some(from + count - 1) else before
  }

  lemma {:induction false} BestFromIsBest(f: Field, x: i64, y: i64, from: i64, count: nat)
    requires InI64(from + count)
    ensures BestBand(f, x, y, from, from + count, BestFrom(f, x, y, from, count))
  {
    if count > 0 {
      var band := from + count - 1;
      var before := BestFrom(f, x, y, from, count - 1);
      BestFromIsBest(f, x, y, from, count - 1);
      VisitBand(f, x, y, from, band, before);
      assert BestFrom(f, x, y, from, count) == if Better(f, x, y, band, before) then Some(band) else before;
    }
  }

  lemma BestBandUnique(f: Field, x: i64, y: i64, from: int, to: int, a: Option<i64>, b: Option<i64>)
    requires BestBand(f, x, y, from, to, a) && BestBand(f, x, y, from, to, b)
    ensures a == b
  {
  }

  lemma BestFromUnique(f: Field, x: i64, y: i64, from: i64, count: nat, best: Option<i64>)
    requires InI64(from + count) && BestBand(f, x, y, from, from + count, best)
    ensures BestFrom(f, x, y, from, count) == best
  {
    BestFromIsBest(f, x, y, from, count);
    BestBandUnique(f, x, y, from, from + count, best, BestFrom(f, x, y, from, count));
  }

  /** The best of the bands around a point. */
  function BestAround(f: Field, x: i64, y: i64): Option<i64> {
    BestFrom(f, x, y, x / BAND - REACH, 2 * REACH + 1)
  }

  lemma BestAroundIs(f: Field, x: i64, y: i64, best: Option<i64>)
    requires BestBand(f, x, y, x / BAND - REACH, x / BAND + REACH + 1, best)
    ensures BestAround(f, x, y) == best
  {
    BestFromUnique(f, x, y, x / BAND - REACH, 2 * REACH + 1, best);
  }

  /** The river at a point. */
  function RiverOf(f: Field, x: i64, y: i64): Option<River> {
    var best := BestAround(f, x, y);
    if best.None? then None else Some(RiverAt(f, best.value, y))
  }

  lemma BestIsRiverOf(f: Field, x: i64, y: i64, best: Option<i64>)
    requires BestBand(f, x, y, x / BAND - 1, x / BAND + 2, best)
    ensures RiverOf(f, x, y) == if best.None? then None else Some(RiverAt(f, best.value, y))
  {
    BestAroundIs(f, x, y, best);
  }

  /** Inland, the river at a point is the answer of all bands, and only its own band can give it. */
  lemma RiverOfInland(f: Field, x: i64, y: i64)
    requires Inland(x)
    ensures SelectedFromAllBands(f, x, y, RiverOf(f, x, y))
    ensures RiverOf(f, x, y) == if Covers(f, x / BAND, x, y) then Some(RiverAt(f, x / BAND, y)) else None
  {
    BestFromIsBest(f, x, y, x / BAND - 1, 3);
    ThreeBandsSuffice(f, x, y, BestAround(f, x, y));
  }

  /** The search over three bands answers for all bands. */
  ghost predicate SearchExactAt(x: i64) {
    forall f: Field, y: i64 :: SelectedFromAllBands(f, x, y, RiverOf(f, x, y))
  }

  /** The search answers for all bands exactly at the inland points: elsewhere a band it does not visit
      may be clamped onto a point that none of the three covers. */
  lemma SearchExactIffInland(x: i64)
    ensures SearchExactAt(x) <==> Inland(x)
  {
    if Inland(x) {
      forall f: Field, y: i64
        ensures SelectedFromAllBands(f, x, y, RiverOf(f, x, y))
      {
        RiverOfInland(f, x, y);
      }
    } else {
      FarRiverIsMissed(x);
    }
  }

  /** The band beyond the visited ones, on the side where centres are clamped. */
  function FarBand(x: i64): i64 {
    if x < 0 then x / BAND - 2 else x / BAND + 2
  }

  /** Only the far band reaches the point. */
  function FarWorld(x: i64): Field
    requires !Inland(x)
  {
    ConstantWorld(FarBand(x), EndOffset(x), NearOffset(x))
  }

  /** An offset that keeps the other rivers away from the point. */
  function NearOffset(x: i64): (o: int)
    requires !Inland(x)
    ensures -12 <= o <= 12
  {
    if 8 <= Abs(EndOffset(x)) then 0 else if x < 0 then 12 else -12
  }

  lemma FarCovers(x: i64)
    requires !Inland(x)
    ensures Covers(FarWorld(x), FarBand(x), x, 0)
  {
    ConstantShape(FarBand(x), EndOffset(x), NearOffset(x), FarBand(x), 0);
  }

  lemma VisitedMiss(x: i64, band: i64)
    requires !Inland(x) && Visited(x, band)
    ensures !Covers(FarWorld(x), band, x, 0)
  {
    ConstantShape(FarBand(x), EndOffset(x), NearOffset(x), band, 0);
  }

  lemma NoneCovers(f: Field, x: i64, y: i64)
    requires forall band: i64 :: Visited(x, band) ==> !Covers(f, band, x, y)
    ensures RiverOf(f, x, y) == None
  {
    assert BestBand(f, x, y, x / BAND - 1, x / BAND + 2, None);
    BestIsRiverOf(f, x, y, None);
  }

  lemma FarRiverIsMissed(x: i64)
    requires !Inland(x)
    ensures !SearchExactAt(x)
  {
    var f := FarWorld(x);
    FarCovers(x);
    forall band: i64 | Visited(x, band)
      ensures !Covers(f, band, x, 0)
    {
      VisitedMiss(x, band);
    }
    NoneCovers(f, x, 0);
    assert !SelectedFromAllBands(f, x, 0, RiverOf(f, x, 0));
  }

  /** Three bands, replacing only a strictly worse best. */
  method SelectRiver(f: Field, x: i64, y: i64) returns (r: Option<River>)
    ensures r == RiverOf(f, x, y)
  {
    var band := x / BAND;
    var west, east: int := Saturated(band - 1), Saturated(band + 1);
    r := None;
    ghost var best: Option<i64> := None;
    var candidateBand := west;
    while candidateBand <= east
      invariant band - 1 <= candidateBand <= band + 2
      invariant BestBand(f, x, y, band - 1, candidateBand, best)
      invariant r == if best.None? then None else Some(RiverAt(f, best.value, y))
    {
      VisitBand(f, x, y, band - 1, candidateBand, best);
      var candidate := RiverAt(f, candidateBand, y);
      var distance := Abs(x - candidate.centerX);
      if distance <= candidate.halfWidth {
        if r.None? || distance < Abs(x - r.value.centerX)
           || (distance == Abs(x - r.value.centerX) && candidate.hash < r.value.hash)
        {
          r, best := Some(candidate), Some(candidateBand);
        }
      }
      candidateBand := candidateBand + 1;
    }
    BestIsRiverOf(f, x, y, best);
  }
}
