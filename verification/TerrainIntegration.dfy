/** Carving lakes and rivers into a quadrant's terrain (crates/terrain/src/hydrology.rs). */
module TerrainIntegration {
  import opened MachineInts
  import opened HydrologyField
  import opened GridIndex
  import opened Lattice
  import opened TerrainAuthorityCodec
  import Lakes
  import Rivers
  import WaterLaws

  /** Standing or flowing water at a lattice point: its surface, and how deep its bed is cut. */
  datatype Water = Wet(surface: i32, depth: i32)

  datatype IntegrationError =
    | InvalidTerrainAuthority
    | InvalidHydrologyGenerator
    | GeneratorMismatch
    | LatticeOverflow
    | InvalidIntegratedTerrain

  /** A lake hides a river. */
  function WaterAt(f: Field, x: i64, y: i64): Option<Water> {
    match Lakes.LakeOf(f, x, y)
    case Some(lake) => Some(Wet(lake.surface, Lakes.BASIN_DEPTH_MM))
    case None =>
      match Rivers.RiverOf(f, x, y)
      case Some(river) => Some(Wet(river.surface, Rivers.CHANNEL_DEPTH_MM))
      case None => None
  }

  /** Any deterministic assignment of water to lattice points. */
  type WaterField = (i64, i64) -> Option<Water>

  function WaterOf(f: Field): WaterField { (x: i64, y: i64) => WaterAt(f, x, y) }

  function LakeWater(lake: Lakes.Lake): Option<Water> { Some(Wet(lake.surface, 2000)) }

  function RiverWater(river: Option<Rivers.River>): Option<Water> {
    if river.Some? then Some(Wet(river.value.surface, 1000)) else None
  }

  ghost predicate LakeSampled(f: Field, x: i64, y: i64, w: Option<Water>) {
    exists lake :: WaterLaws.FirstLake(f, x, y, Some(lake)) && w == LakeWater(lake)
  }

  ghost predicate RiverSampled(f: Field, x: i64, y: i64, w: Option<Water>) {
    exists river ::
      && WaterLaws.FirstNearRiver(f, x, y, river)
      && (I64_MIN + 16 < x < I64_MAX - 16 ==> WaterLaws.FirstRiver(f, x, y, I64_MIN, I64_MAX, river))
      && w == RiverWater(river)
  }

  /** What a sample is: the first lake of the plane that reaches the point, cut 2000 deep; without one,
      the first river of the three bands around the point, inland of all bands, cut 1000 deep; and
      otherwise dry. */
  ghost predicate Sampled(f: Field, x: i64, y: i64, w: Option<Water>) {
    LakeSampled(f, x, y, w) || (WaterLaws.FirstLake(f, x, y, None) && RiverSampled(f, x, y, w))
  }

  lemma WaterAtIsSampled(f: Field, x: i64, y: i64)
    ensures Sampled(f, x, y, WaterAt(f, x, y))
  {
    Lakes.LakeOfIsSelected(f, x, y);
    WaterLaws.SelectedLakeIsFirst(f, x, y, Lakes.LakeOf(f, x, y));
    match Lakes.LakeOf(f, x, y)
    case Some(lake) => assert WaterAt(f, x, y) == LakeWater(lake);
    case None => RiverIsSampled(f, x, y);
  }

  lemma RiverIsSampled(f: Field, x: i64, y: i64)
    ensures WaterLaws.FirstNearRiver(f, x, y, Rivers.RiverOf(f, x, y))
    ensures I64_MIN + 16 < x < I64_MAX - 16 ==>
              WaterLaws.FirstRiver(f, x, y, I64_MIN, I64_MAX, Rivers.RiverOf(f, x, y))
    ensures Lakes.LakeOf(f, x, y).None? ==> WaterAt(f, x, y) == RiverWater(Rivers.RiverOf(f, x, y))
  {
    WaterLaws.NearRiverIsFirst(f, x, y);
    if I64_MIN + 16 < x < I64_MAX - 16 {
      Rivers.RiverOfInland(f, x, y);
      WaterLaws.SelectedRiverIsFirst(f, x, y, Rivers.RiverOf(f, x, y));
    }
  }

  lemma LakeSampledUnique(f: Field, x: i64, y: i64, v: Option<Water>, w: Option<Water>)
    requires LakeSampled(f, x, y, v)
    ensures !WaterLaws.FirstLake(f, x, y, None)
    ensures LakeSampled(f, x, y, w) ==> v == w
  {
    var a :| WaterLaws.FirstLake(f, x, y, Some(a)) && v == LakeWater(a);
    if WaterLaws.FirstLake(f, x, y, None) {
      WaterLaws.FirstLakeUnique(f, x, y, Some(a), None);
    }
    if LakeSampled(f, x, y, w) {
      var b :| WaterLaws.FirstLake(f, x, y, Some(b)) && w == LakeWater(b);
      WaterLaws.FirstLakeUnique(f, x, y, Some(a), Some(b));
    }
  }

  lemma RiverSampledUnique(f: Field, x: i64, y: i64, v: Option<Water>, w: Option<Water>)
    requires RiverSampled(f, x, y, v) && RiverSampled(f, x, y, w)
    ensures v == w
  {
    var a :| WaterLaws.FirstNearRiver(f, x, y, a) && v == RiverWater(a);
    var b :| WaterLaws.FirstNearRiver(f, x, y, b) && w == RiverWater(b);
    WaterLaws.FirstNearRiverUnique(f, x, y, a, b);
  }

  /** A sample has one answer. */
  lemma SampledUnique(f: Field, x: i64, y: i64, v: Option<Water>, w: Option<Water>)
    requires Sampled(f, x, y, v) && Sampled(f, x, y, w)
    ensures v == w
  {
    if LakeSampled(f, x, y, v) {
      LakeSampledUnique(f, x, y, v, w);
    } else if LakeSampled(f, x, y, w) {
      LakeSampledUnique(f, x, y, w, v);
    } else {
      RiverSampledUnique(f, x, y, v, w);
    }
  }

  method SampleHydrology(f: Field, x: i64, y: i64) returns (w: Option<Water>)
    ensures Sampled(f, x, y, w)
    ensures w == WaterAt(f, x, y)
  {
    WaterAtIsSampled(f, x, y);
    var lake := Lakes.SelectLake(f, x, y);
    if lake.Some? {
      return Some(Wet(lake.value.surface, Lakes.BASIN_DEPTH_MM));
    }
    var river := Rivers.SelectRiver(f, x, y);
    w := if river.Some? then Some(Wet(river.value.surface, Rivers.CHANNEL_DEPTH_MM)) else None;
  }

  /** `base * samples + local`, checked in 64 bits. */
  function GlobalOf(quadrant: i64, local: int, samples: int): Option<i64> {
    if !InI64(quadrant * samples) then None
    else if !InI64(quadrant * samples + local) then None
    else Some(quadrant * samples + local)
  }

  /** Every sample of the quadrant is a lattice point. */
  predicate OnLattice(t: TerrainContract)
    requires t.side >= 1
  {
    var samples := t.side - 1;
    && InI64(t.coord.x * samples) && InI64(t.coord.x * samples + samples)
    && InI64(t.coord.y * samples) && InI64(t.coord.y * samples + samples)
  }

  function GlobalX(t: TerrainContract, x: nat): i64
    requires t.side >= 1 && OnLattice(t) && x < t.side
  {
    t.coord.x * (t.side - 1) + x
  }

  function GlobalY(t: TerrainContract, y: nat): i64
    requires t.side >= 1 && OnLattice(t) && y < t.side
  {
    t.coord.y * (t.side - 1) + y
  }

  /** The bed at a vertex: never above the water's bed, and untouched where it is dry. */
  function Carved(elevation: i32, water: Option<Water>): i32 {
    if water.None? then elevation else Min(elevation, Max(water.value.surface - water.value.depth, I32_MIN))
  }

  // ----- What integration means -----

  predicate Vertex(t: TerrainContract, x: int, y: int) { 0 <= x < t.side && 0 <= y < t.side }

  predicate Cell(t: TerrainContract, x: int, y: int) { 0 <= x < t.side - 1 && 0 <= y < t.side - 1 }

  predicate WetVertex(w: WaterField, t: TerrainContract, x: nat, y: nat)
    requires Placed(t) && Vertex(t, x, y)
  {
    w(GlobalX(t, x), GlobalY(t, y)).Some?
  }

  predicate Placed(t: TerrainContract) { t.side >= 1 && OnLattice(t) }

  predicate WetCell(w: WaterField, t: TerrainContract, x: nat, y: nat)
    requires Placed(t) && Cell(t, x, y)
  {
    WetVertex(w, t, x, y) || WetVertex(w, t, x + 1, y) || WetVertex(w, t, x, y + 1) || WetVertex(w, t, x + 1, y + 1)
  }

  function ElevationAt(t: TerrainContract, x: nat, y: nat): i32
    requires ValidContract(t) && Vertex(t, x, y)
  {
    AtInside(t.side, x, y, t.side);
    t.elevations[At(t.side, x, y)]
  }

  function FlagsAt(t: TerrainContract, x: nat, y: nat): u8
    requires ValidContract(t) && Cell(t, x, y)
  {
    AtInside(t.side - 1, x, y, t.side - 1);
    t.cellFlags[At(t.side - 1, x, y)]
  }

  /** `r` is `t` with the field's water carved in, and nothing else changed. */
  ghost predicate Carves(w: WaterField, t: TerrainContract, r: TerrainContract)
    requires ValidContract(t) && Placed(t) && ValidContract(r) && r.side == t.side
  {
    forall x, y :: Vertex(t, x, y) ==>
      ElevationAt(r, x, y) == Carved(ElevationAt(t, x, y), w(GlobalX(t, x), GlobalY(t, y)))
  }

  ghost predicate Integrates(w: WaterField, t: TerrainContract, r: TerrainContract)
    requires ValidContract(t) && Placed(t)
  {
    && r == t.(elevations := r.elevations, cellFlags := r.cellFlags)
    && ValidContract(r)
    && Carves(w, t, r)
    && (forall x, y :: Cell(t, x, y) ==>
          FlagsAt(r, x, y) == if WetCell(w, t, x, y) then CELL_WATER + CELL_BLOCKED else FlagsAt(t, x, y))
  }

  /** Integration only lowers the ground, and only under water. */
  lemma OnlyLowers(w: WaterField, t: TerrainContract, r: TerrainContract, x: nat, y: nat)
    requires ValidContract(t) && Placed(t) && Integrates(w, t, r) && Vertex(t, x, y)
    ensures ElevationAt(r, x, y) <= ElevationAt(t, x, y)
    ensures !WetVertex(w, t, x, y) ==> ElevationAt(r, x, y) == ElevationAt(t, x, y)
    ensures WetVertex(w, t, x, y) ==>
              var water := w(GlobalX(t, x), GlobalY(t, y)).value;
              ElevationAt(r, x, y) <= Max(water.surface - water.depth, I32_MIN)
  {
  }

  /** A second integration changes nothing. */
  lemma IntegrationIdempotent(w: WaterField, t: TerrainContract, r: TerrainContract, s: TerrainContract)
    requires ValidContract(t) && Placed(t) && Integrates(w, t, r) && Integrates(w, r, s)
    ensures s == r
  {
    forall x: nat, y: nat | x < t.side && y < t.side
      ensures 0 <= At(t.side, x, y) < |r.elevations| && s.elevations[At(t.side, x, y)] == r.elevations[At(t.side, x, y)]
    {
      AtInside(t.side, x, y, t.side);
      SameElevation(w, t, r, s, x, y);
    }
    SameRows(s.elevations, r.elevations, t.side, t.side);
    SameCells(w, t, r, s);
  }

  lemma SameElevation(w: WaterField, t: TerrainContract, r: TerrainContract, s: TerrainContract, x: nat, y: nat)
    requires ValidContract(t) && Placed(t) && Integrates(w, t, r) && Integrates(w, r, s) && Vertex(t, x, y)
    ensures ElevationAt(s, x, y) == ElevationAt(r, x, y)
  {
    CarvedAgain(w, t, r, s, x, y);
  }

  lemma CarvedAgain(w: WaterField, t: TerrainContract, r: TerrainContract, s: TerrainContract, x: nat, y: nat)
    requires ValidContract(t) && ValidContract(r) && ValidContract(s) && Placed(t) && Placed(r) && Vertex(t, x, y)
    requires r.side == t.side && s.side == t.side && r.coord == t.coord
    requires Carves(w, t, r) && Carves(w, r, s)
    ensures ElevationAt(s, x, y) == ElevationAt(r, x, y)
  {
    assert GlobalX(r, x) == GlobalX(t, x) && GlobalY(r, y) == GlobalY(t, y);
    CarvingTwice(ElevationAt(t, x, y), w(GlobalX(t, x), GlobalY(t, y)));
  }

  lemma CarvingTwice(elevation: i32, water: Option<Water>)
    ensures Carved(Carved(elevation, water), water) == Carved(elevation, water)
  {
  }

  lemma SameWetness(w: WaterField, t: TerrainContract, r: TerrainContract, x: nat, y: nat)
    requires Placed(t) && Placed(r) && t.coord == r.coord && t.side == r.side && Cell(t, x, y)
    ensures WetCell(w, r, x, y) == WetCell(w, t, x, y)
  {
  }

  lemma SameCell(w: WaterField, t: TerrainContract, r: TerrainContract, s: TerrainContract, x: nat, y: nat)
    requires ValidContract(t) && Placed(t) && Integrates(w, t, r) && Integrates(w, r, s) && Cell(t, x, y)
    ensures FlagsAt(s, x, y) == FlagsAt(r, x, y)
  {
    SameWetness(w, t, r, x, y);
    assert Cell(r, x, y);
  }

  lemma SameCells(w: WaterField, t: TerrainContract, r: TerrainContract, s: TerrainContract)
    requires ValidContract(t) && Placed(t) && Integrates(w, t, r) && Integrates(w, r, s)
    ensures s.cellFlags == r.cellFlags
  {
    var cells := t.side - 1;
    forall x: nat, y: nat | x < cells && y < cells
      ensures 0 <= At(cells, x, y) < |r.cellFlags| && s.cellFlags[At(cells, x, y)] == r.cellFlags[At(cells, x, y)]
    {
      AtInside(cells, x, y, cells);
      SameCell(w, t, r, s, x, y);
    }
    SameRows(s.cellFlags, r.cellFlags, cells, cells);
  }

  // ----- Shared edges -----

  /** `b` is the quadrant east of `a`, on the same lattice. */
  predicate EastOf(a: TerrainContract, b: TerrainContract) {
    a.side == b.side && b.coord.x == a.coord.x + 1 && b.coord.y == a.coord.y
  }

  predicate NorthOf(a: TerrainContract, b: TerrainContract) {
    a.side == b.side && b.coord.x == a.coord.x && b.coord.y == a.coord.y + 1
  }

  predicate AgreeEast(a: TerrainContract, b: TerrainContract)
    requires ValidContract(a) && ValidContract(b) && a.side == b.side
  {
    forall y :: 0 <= y < a.side ==> ElevationAt(a, a.side - 1, y) == ElevationAt(b, 0, y)
  }

  predicate AgreeNorth(a: TerrainContract, b: TerrainContract)
    requires ValidContract(a) && ValidContract(b) && a.side == b.side
  {
    forall x :: 0 <= x < a.side ==> ElevationAt(a, x, a.side - 1) == ElevationAt(b, x, 0)
  }

  lemma NextBlock(q: int, samples: int)
    ensures (q + 1) * samples == q * samples + samples
  {
  }

  /** Quadrants that agree on their shared edge still agree on it after integration. */
  lemma EastEdgeAgrees(w: WaterField, a: TerrainContract, b: TerrainContract, ra: TerrainContract, rb: TerrainContract)
    requires ValidContract(a) && ValidContract(b) && Placed(a) && Placed(b)
    requires EastOf(a, b) && AgreeEast(a, b)
    requires Integrates(w, a, ra) && Integrates(w, b, rb)
    ensures AgreeEast(ra, rb)
  {
    NextBlock(a.coord.x, a.side - 1);
    forall y | 0 <= y < a.side
      ensures ElevationAt(ra, a.side - 1, y) == ElevationAt(rb, 0, y)
    {
      assert Vertex(a, a.side - 1, y) && Vertex(b, 0, y);
      assert GlobalX(a, a.side - 1) == GlobalX(b, 0) && GlobalY(a, y) == GlobalY(b, y);
    }
  }

  lemma NorthEdgeAgrees(w: WaterField, a: TerrainContract, b: TerrainContract, ra: TerrainContract, rb: TerrainContract)
    requires ValidContract(a) && ValidContract(b) && Placed(a) && Placed(b)
    requires NorthOf(a, b) && AgreeNorth(a, b)
    requires Integrates(w, a, ra) && Integrates(w, b, rb)
    ensures AgreeNorth(ra, rb)
  {
    NextBlock(a.coord.y, a.side - 1);
    forall x | 0 <= x < a.side
      ensures ElevationAt(ra, x, a.side - 1) == ElevationAt(rb, x, 0)
    {
      assert Vertex(a, x, a.side - 1) && Vertex(b, x, 0);
      assert GlobalY(a, a.side - 1) == GlobalY(b, 0) && GlobalX(a, x) == GlobalX(b, x);
    }
  }

  // ----- The integration -----

  predicate Before(u: int, v: int, x: int, y: int) { v < y || (v == y && u < x) }

  /** The vertices before `(x, y)` are carved and their wetness is known; the others are as in `t`. */
  ghost predicate CarvedUpTo(w: WaterField, t: TerrainContract, elevations: seq<i32>, wet: seq<bool>, x: int, y: int)
    requires ValidContract(t) && Placed(t)
  {
    && |elevations| == |wet| == |t.elevations|
    && forall u: nat, v: nat :: Vertex(t, u, v) ==>
         var i := At(t.side, u, v);
         && 0 <= i < |elevations|
         && elevations[i] == (if Before(u, v, x, y) then Carved(t.elevations[i], w(GlobalX(t, u), GlobalY(t, v)))
                              else t.elevations[i])
         && wet[i] == (Before(u, v, x, y) && WetVertex(w, t, u, v))
  }

  lemma NothingCarved(w: WaterField, t: TerrainContract, wet: seq<bool>)
    requires ValidContract(t) && Placed(t) && |wet| == |t.elevations| && forall i :: 0 <= i < |wet| ==> !wet[i]
    ensures CarvedUpTo(w, t, t.elevations, wet, 0, 0)
  {
    forall u: nat, v: nat | Vertex(t, u, v)
      ensures 0 <= At(t.side, u, v) < |wet|
    {
      AtInside(t.side, u, v, t.side);
    }
  }

  lemma CarveOne(w: WaterField, t: TerrainContract, elevations: seq<i32>, wet: seq<bool>, x: nat, y: nat)
    requires ValidContract(t) && Placed(t) && Vertex(t, x, y)
    requires CarvedUpTo(w, t, elevations, wet, x, y)
    ensures var i := At(t.side, x, y);
            var water := w(GlobalX(t, x), GlobalY(t, y));
            && 0 <= i < |wet|
            && CarvedUpTo(w, t, elevations[i := Carved(elevations[i], water)],
                          if water.Some? then wet[i := true] else wet, x + 1, y)
  {
    AtInside(t.side, x, y, t.side);
    var i := At(t.side, x, y);
    forall u: nat, v: nat | Vertex(t, u, v)
      ensures At(t.side, u, v) == i <==> u == x && v == y
      ensures 0 <= At(t.side, u, v) < |wet|
    {
      AtInside(t.side, u, v, t.side);
      if At(t.side, u, v) == i {
        AtInjective(t.side, u, v, x, y);
      }
    }
  }

  lemma RowCarved(w: WaterField, t: TerrainContract, elevations: seq<i32>, wet: seq<bool>, y: nat)
    requires ValidContract(t) && Placed(t) && CarvedUpTo(w, t, elevations, wet, t.side, y)
    ensures CarvedUpTo(w, t, elevations, wet, 0, y + 1)
  {
    assert forall u: nat, v: nat :: Vertex(t, u, v) ==> Before(u, v, t.side, y) == Before(u, v, 0, y + 1);
  }

  lemma PlacedGlobals(t: TerrainContract, x: nat, y: nat)
    requires ValidContract(t) && Vertex(t, x, y)
    ensures Placed(t) ==> GlobalOf(t.coord.x, x, t.side - 1) == Some(GlobalX(t, x))
                          && GlobalOf(t.coord.y, y, t.side - 1) == Some(GlobalY(t, y))
    ensures GlobalOf(t.coord.x, t.side - 1, t.side - 1).Some? && GlobalOf(t.coord.y, t.side - 1, t.side - 1).Some? ==>
              Placed(t)
  {
  }

  /** Samples every vertex, lowering the ground under water; fails when a sample is off the lattice. */
  method CarveVertices(f: Field, t: TerrainContract, elevations: array<i32>, wet: array<bool>) returns (ok: bool)
    requires ValidContract(t) && elevations[..] == t.elevations
    requires wet.Length == |t.elevations| && forall i :: 0 <= i < wet.Length ==> !wet[i]
    modifies elevations, wet
    ensures ok <==> Placed(t)
    ensures ok ==> CarvedUpTo(WaterOf(f), t, elevations[..], wet[..], 0, t.side)
  {
    ghost var w := WaterOf(f);
    var samples := t.side - 1;
    if Placed(t) {
      NothingCarved(w, t, wet[..]);
    }
    var y := 0;
    while y < t.side
      invariant 0 <= y <= t.side && elevations.Length == wet.Length == |t.elevations|
      invariant Placed(t) ==> CarvedUpTo(w, t, elevations[..], wet[..], 0, y)
      invariant y == t.side ==> Placed(t)
    {
      var carved := CarveRow(f, t, elevations, wet, y);
      if !carved {
        return false;
      }
      if Placed(t) {
        RowCarved(w, t, elevations[..], wet[..], y);
      }
      y := y + 1;
    }
    ok := true;
  }

  /** Samples one vertex. */
  method CarveVertex(f: Field, t: TerrainContract, elevations: array<i32>, wet: array<bool>, x: nat, y: nat)
    returns (ok: bool)
    requires ValidContract(t) && Vertex(t, x, y) && elevations.Length == wet.Length == |t.elevations|
    requires Placed(t) ==> CarvedUpTo(WaterOf(f), t, elevations[..], wet[..], x, y)
    modifies elevations, wet
    ensures Placed(t) ==> ok
    ensures ok && x == y == t.side - 1 ==> Placed(t)
    ensures ok && Placed(t) ==> CarvedUpTo(WaterOf(f), t, elevations[..], wet[..], x + 1, y)
  {
    var samples := t.side - 1;
    PlacedGlobals(t, x, y);
    AtInside(t.side, x, y, t.side);
    var globalX, globalY := GlobalOf(t.coord.x, x, samples), GlobalOf(t.coord.y, y, samples);
    if globalX.None? || globalY.None? {
      return false;
    }
    if Placed(t) {
      CarveOne(WaterOf(f), t, elevations[..], wet[..], x, y);
    }
    var water := SampleHydrology(f, globalX.value, globalY.value);
    if water.Some? {
      var index := y * t.side + x;
      elevations[index] := Min(elevations[index], Max(water.value.surface - water.value.depth, I32_MIN));
      wet[index] := true;
    }
    ok := true;
  }

  method CarveRow(f: Field, t: TerrainContract, elevations: array<i32>, wet: array<bool>, y: nat) returns (ok: bool)
    requires ValidContract(t) && y < t.side && elevations.Length == wet.Length == |t.elevations|
    requires Placed(t) ==> CarvedUpTo(WaterOf(f), t, elevations[..], wet[..], 0, y)
    modifies elevations, wet
    ensures Placed(t) ==> ok
    ensures ok && y == t.side - 1 ==> Placed(t)
    ensures ok && Placed(t) ==> CarvedUpTo(WaterOf(f), t, elevations[..], wet[..], t.side, y)
  {
    ghost var w := WaterOf(f);
    var x := 0;
    while x < t.side
      invariant 0 <= x <= t.side
      invariant Placed(t) ==> CarvedUpTo(w, t, elevations[..], wet[..], x, y)
      invariant x == t.side && y == t.side - 1 ==> Placed(t)
    {
      var carved := CarveVertex(f, t, elevations, wet, x, y);
      if !carved {
        return false;
      }
      x := x + 1;
    }
    ok := true;
  }

  /** The cells before `(x, y)` are marked by their corners; the others keep their flags. */
  ghost predicate MarkedUpTo(w: WaterField, t: TerrainContract, flags: seq<u8>, x: int, y: int)
    requires ValidContract(t) && Placed(t)
  {
    && |flags| == |t.cellFlags|
    && forall u: nat, v: nat :: Cell(t, u, v) ==>
         var i := At(t.side - 1, u, v);
         && 0 <= i < |flags|
         && flags[i] == if Before(u, v, x, y) && WetCell(w, t, u, v) then CELL_WATER + CELL_BLOCKED else t.cellFlags[i]
  }

  lemma NothingMarked(w: WaterField, t: TerrainContract)
    requires ValidContract(t) && Placed(t)
    ensures MarkedUpTo(w, t, t.cellFlags, 0, 0)
  {
    forall u: nat, v: nat | Cell(t, u, v)
      ensures 0 <= At(t.side - 1, u, v) < |t.cellFlags|
    {
      AtInside(t.side - 1, u, v, t.side - 1);
    }
  }

  lemma MarkOne(w: WaterField, t: TerrainContract, flags: seq<u8>, x: nat, y: nat)
    requires ValidContract(t) && Placed(t) && Cell(t, x, y) && MarkedUpTo(w, t, flags, x, y)
    ensures var i := At(t.side - 1, x, y);
            && 0 <= i < |flags|
            && MarkedUpTo(w, t, if WetCell(w, t, x, y) then flags[i := CELL_WATER + CELL_BLOCKED] else flags, x + 1, y)
  {
    var cells := t.side - 1;
    AtInside(cells, x, y, cells);
    forall u: nat, v: nat | Cell(t, u, v)
      ensures At(cells, u, v) == At(cells, x, y) <==> u == x && v == y
      ensures 0 <= At(cells, u, v) < |flags|
    {
      AtInside(cells, u, v, cells);
      if At(cells, u, v) == At(cells, x, y) {
        AtInjective(cells, u, v, x, y);
      }
    }
  }

  lemma RowMarked(w: WaterField, t: TerrainContract, flags: seq<u8>, y: nat)
    requires ValidContract(t) && Placed(t) && MarkedUpTo(w, t, flags, t.side - 1, y)
    ensures MarkedUpTo(w, t, flags, 0, y + 1)
  {
    assert forall u: nat, v: nat :: Cell(t, u, v) ==> Before(u, v, t.side - 1, y) == Before(u, v, 0, y + 1);
  }

  /** The corners of a cell in the wet vertices, as the code indexes them. */
  lemma CornerIndices(w: WaterField, t: TerrainContract, elevations: seq<i32>, wet: seq<bool>, x: nat, y: nat)
    requires ValidContract(t) && Placed(t) && Cell(t, x, y)
    requires CarvedUpTo(w, t, elevations, wet, 0, t.side)
    ensures var i := y * t.side + x;
            && 0 <= i && i + t.side + 1 < |wet|
            && (wet[i] || wet[i + 1] || wet[i + t.side] || wet[i + t.side + 1] <==> WetCell(w, t, x, y))
  {
    CornerOffsets(t.side, x, y);
    WetAt(w, t, elevations, wet, x, y);
    WetAt(w, t, elevations, wet, x + 1, y);
    WetAt(w, t, elevations, wet, x, y + 1);
    WetAt(w, t, elevations, wet, x + 1, y + 1);
  }

  lemma CornerOffsets(side: nat, x: nat, y: nat)
    ensures At(side, x, y) == y * side + x && At(side, x + 1, y) == At(side, x, y) + 1
    ensures At(side, x, y + 1) == At(side, x, y) + side && At(side, x + 1, y + 1) == At(side, x, y) + side + 1
  {
    assert (y + 1) * side == y * side + side;
  }

  lemma WetAt(w: WaterField, t: TerrainContract, elevations: seq<i32>, wet: seq<bool>, x: nat, y: nat)
    requires ValidContract(t) && Placed(t) && Vertex(t, x, y)
    requires CarvedUpTo(w, t, elevations, wet, 0, t.side)
    ensures 0 <= At(t.side, x, y) < |wet| && wet[At(t.side, x, y)] == WetVertex(w, t, x, y)
  {
  }

  method AnyCornerWet(ghost w: WaterField, t: TerrainContract, ghost elevations: seq<i32>, wet: seq<bool>,
                      x: nat, y: nat)
    returns (r: bool)
    requires ValidContract(t) && Placed(t) && Cell(t, x, y)
    requires CarvedUpTo(w, t, elevations, wet, 0, t.side)
    ensures r == WetCell(w, t, x, y)
  {
    CornerIndices(w, t, elevations, wet, x, y);
    var side := t.side;
    var i00 := y * side + x;
    r := wet[i00] || wet[i00 + 1] || wet[i00 + side] || wet[i00 + side + 1];
  }

  method MarkRow(ghost w: WaterField, t: TerrainContract, ghost elevations: seq<i32>, wet: seq<bool>,
                 flags: array<u8>, y: nat)
    requires ValidContract(t) && Placed(t) && y < t.side - 1 && flags.Length == |t.cellFlags|
    requires CarvedUpTo(w, t, elevations, wet, 0, t.side)
    requires MarkedUpTo(w, t, flags[..], 0, y)
    modifies flags
    ensures MarkedUpTo(w, t, flags[..], 0, y + 1)
  {
    var cellSide := t.side - 1;
    var x := 0;
    while x < cellSide
      invariant 0 <= x <= cellSide
      invariant MarkedUpTo(w, t, flags[..], x, y)
    {
      MarkOne(w, t, flags[..], x, y);
      var wetCell := AnyCornerWet(w, t, elevations, wet, x, y);
      if wetCell {
        flags[y * cellSide + x] := CELL_WATER + CELL_BLOCKED;
      }
      x := x + 1;
    }
    RowMarked(w, t, flags[..], y);
  }

  method MarkCells(ghost w: WaterField, t: TerrainContract, ghost elevations: seq<i32>, wet: seq<bool>,
                   flags: array<u8>)
    requires ValidContract(t) && Placed(t) && flags[..] == t.cellFlags
    requires CarvedUpTo(w, t, elevations, wet, 0, t.side)
    modifies flags
    ensures MarkedUpTo(w, t, flags[..], 0, t.side - 1)
  {
    NothingMarked(w, t);
    var y := 0;
    while y < t.side - 1
      invariant 0 <= y <= t.side - 1 && flags.Length == |t.cellFlags|
      invariant MarkedUpTo(w, t, flags[..], 0, y)
    {
      MarkRow(w, t, elevations, wet, flags, y);
      y := y + 1;
    }
  }

  /** Marking and carving keep a contract valid: wet cells are water and blocked, which no rule
      forbids. */
  lemma IntegrationKeepsValid(w: WaterField, t: TerrainContract, elevations: seq<i32>, wet: seq<bool>, flags: seq<u8>)
    requires ValidContract(t) && Placed(t)
    requires CarvedUpTo(w, t, elevations, wet, 0, t.side) && MarkedUpTo(w, t, flags, 0, t.side - 1)
    ensures ValidContract(t.(elevations := elevations, cellFlags := flags))
  {
    var cells := t.side - 1;
    forall x: nat, y: nat | x < cells && y < cells
      ensures 0 <= At(cells, x, y) < |flags| && ValidFlags(flags[At(cells, x, y)])
    {
      AtInside(cells, x, y, cells);
      assert Cell(t, x, y);
      assert ValidFlags(CELL_WATER + CELL_BLOCKED);
    }
    ValidRows(flags, cells, cells);
  }

  lemma ValidRows(flags: seq<u8>, side: nat, rows: nat)
    requires |flags| == side * rows
    requires forall x: nat, y: nat :: x < side && y < rows ==>
               0 <= At(side, x, y) < |flags| && ValidFlags(flags[At(side, x, y)])
    ensures forall i :: 0 <= i < |flags| ==> ValidFlags(flags[i])
  {
    forall i | 0 <= i < |flags|
      ensures ValidFlags(flags[i])
    {
      assert side > 0;
      AtSurjective(side, rows, i);
    }
  }

  lemma IntegrationComplete(w: WaterField, t: TerrainContract, elevations: seq<i32>, wet: seq<bool>, flags: seq<u8>)
    requires ValidContract(t) && Placed(t)
    requires CarvedUpTo(w, t, elevations, wet, 0, t.side) && MarkedUpTo(w, t, flags, 0, t.side - 1)
    ensures Integrates(w, t, t.(elevations := elevations, cellFlags := flags))
  {
    IntegrationKeepsValid(w, t, elevations, wet, flags);
  }

  /** A field that answers every point by its sample; there is one. */
  ghost predicate Samples(f: Field, w: WaterField) {
    forall x: i64, y: i64 :: Sampled(f, x, y, w(x, y))
  }

  lemma WaterOfSamples(f: Field)
    ensures Samples(f, WaterOf(f))
  {
    forall x: i64, y: i64
      ensures Sampled(f, x, y, WaterOf(f)(x, y))
    {
      WaterAtIsSampled(f, x, y);
    }
  }

  /** The water at a vertex of the quadrant, whose lattice points are numbered across quadrants. */
  function WaterBelow(w: WaterField, t: TerrainContract, x: nat, y: nat): Option<Water> {
    var gx, gy := t.coord.x * (t.side as int - 1) + x, t.coord.y * (t.side as int - 1) + y;
    if InI64(gx) && InI64(gy) then w(gx, gy) else None
  }

  /** The ground at a vertex after integration. */
  predicate VertexIntegrated(w: WaterField, t: TerrainContract, r: TerrainContract, x: nat, y: nat)
    requires ValidContract(t) && ValidContract(r) && r.side == t.side && Vertex(t, x, y)
  {
    match WaterBelow(w, t, x, y)
    case None => ElevationAt(r, x, y) == ElevationAt(t, x, y)
    case Some(Wet(surface, depth)) =>
      ElevationAt(r, x, y) == Min(ElevationAt(t, x, y), Max(surface - depth, I32_MIN))
  }

  /** The flags of a cell after integration: water and blocked, and nothing else, next to water. */
  predicate CellIntegrated(w: WaterField, t: TerrainContract, r: TerrainContract, x: nat, y: nat)
    requires ValidContract(t) && ValidContract(r) && r.side == t.side && Cell(t, x, y)
  {
    if WaterBelow(w, t, x, y).None? && WaterBelow(w, t, x + 1, y).None?
       && WaterBelow(w, t, x, y + 1).None? && WaterBelow(w, t, x + 1, y + 1).None?
    then FlagsAt(r, x, y) == FlagsAt(t, x, y)
    else FlagsAt(r, x, y) == 4 + 8
  }

  /** Integration by a field, with every rule written out. */
  ghost predicate Integrated(w: WaterField, t: TerrainContract, r: TerrainContract)
    requires ValidContract(t)
  {
    && r == t.(elevations := r.elevations, cellFlags := r.cellFlags)
    && ValidContract(r)
    && (forall x: nat, y: nat :: Vertex(t, x, y) ==> VertexIntegrated(w, t, r, x, y))
    && (forall x: nat, y: nat :: Cell(t, x, y) ==> CellIntegrated(w, t, r, x, y))
  }

  lemma VertexLaw(w: WaterField, t: TerrainContract, r: TerrainContract, x: nat, y: nat)
    requires ValidContract(t) && Placed(t) && ValidContract(r) && r.side == t.side && Carves(w, t, r)
    requires Vertex(t, x, y)
    ensures VertexIntegrated(w, t, r, x, y)
    ensures WaterBelow(w, t, x, y) == w(GlobalX(t, x), GlobalY(t, y))
  {
  }

  lemma CellLaw(w: WaterField, t: TerrainContract, r: TerrainContract, x: nat, y: nat)
    requires ValidContract(t) && Placed(t) && Integrates(w, t, r) && Cell(t, x, y)
    ensures CellIntegrated(w, t, r, x, y)
  {
    VertexLaw(w, t, r, x, y);
    VertexLaw(w, t, r, x + 1, y);
    VertexLaw(w, t, r, x, y + 1);
    VertexLaw(w, t, r, x + 1, y + 1);
  }

  lemma IntegrationLaw(w: WaterField, t: TerrainContract, r: TerrainContract)
    requires ValidContract(t) && Placed(t) && Integrates(w, t, r)
    ensures Integrated(w, t, r)
  {
    forall x: nat, y: nat | Vertex(t, x, y)
      ensures VertexIntegrated(w, t, r, x, y)
    {
      VertexLaw(w, t, r, x, y);
    }
    forall x: nat, y: nat | Cell(t, x, y)
      ensures CellIntegrated(w, t, r, x, y)
    {
      CellLaw(w, t, r, x, y);
    }
  }

  /** Integrates the field into a terrain, or says which check refused; the check of the result
      never does. */
  method ApplyHydrology(f: Field, generatorVersion: u32, t: TerrainContract)
    returns (r: Result<TerrainContract, IntegrationError>)
    ensures r.Ok? <==> ValidContract(t) && generatorVersion == t.generatorVersion && Placed(t)
    ensures r.Ok? ==> Integrates(WaterOf(f), t, r.value)
    ensures r.Ok? ==> Samples(f, WaterOf(f)) && Integrated(WaterOf(f), t, r.value)
    ensures r.Err? ==> r.error != InvalidIntegratedTerrain
    ensures !ValidContract(t) ==> r == Err(InvalidTerrainAuthority)
    ensures r == Err(InvalidHydrologyGenerator) <==> ValidContract(t) && generatorVersion == 0
    ensures r == Err(GeneratorMismatch) <==> ValidContract(t) && generatorVersion !in {0, t.generatorVersion}
    ensures r == Err(LatticeOverflow) <==> ValidContract(t) && generatorVersion == t.generatorVersion && !Placed(t)
  {
    var valid := Validate(t);
    if valid.Err? {
      return Err(InvalidTerrainAuthority);
    }
    if generatorVersion == 0 {
      return Err(InvalidHydrologyGenerator);
    }
    if t.generatorVersion != generatorVersion {
      return Err(GeneratorMismatch);
    }
    var elevations := new i32[|t.elevations|](i requires 0 <= i < |t.elevations| => t.elevations[i]);
    var wet := new bool[|t.elevations|](i => false);
    assert elevations[..] == t.elevations;
    var carved := CarveVertices(f, t, elevations, wet);
    if !carved {
      return Err(LatticeOverflow);
    }
    var flags := new u8[|t.cellFlags|](i requires 0 <= i < |t.cellFlags| => t.cellFlags[i]);
    assert flags[..] == t.cellFlags;
    MarkCells(WaterOf(f), t, elevations[..], wet[..], flags);
    IntegrationComplete(WaterOf(f), t, elevations[..], wet[..], flags[..]);
    var integrated := t.(elevations := elevations[..], cellFlags := flags[..]);
    var checked := Validate(integrated);
    if checked.Err? {
      return Err(InvalidIntegratedTerrain);
    }
    IntegrationLaw(WaterOf(f), t, integrated);
    WaterOfSamples(f);
    r := Ok(integrated);
  }
}
