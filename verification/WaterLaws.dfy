/** What a lake, a river and a sample are, told from the hashes alone
    (crates/terrain/src/hydrology.rs). */
module WaterLaws {
  import opened MachineInts
  import opened HydrologyField
  import Lakes
  import CarriedDivision
  import Rivers

  // ----- Lakes -----

  /** The lake that a region's hash draws: every fourth hash draws one, centred at most 16 points from
      the middle of the region along either axis. */
  predicate LakeDrawn(f: Field, rx: i64, ry: i64, lake: Lakes.Lake) {
    var hash := f.lakeHash(rx, ry);
    && lake.hash == hash && hash % 4 == 0
    && InI64(48 * rx) && InI64(48 * rx + 24) && InI64(48 * ry) && InI64(48 * ry + 24)
    && -16 <= lake.centerX - (48 * rx + 24) <= 16
    && (hash / 0x100 - (lake.centerX - (48 * rx + 8))) % 33 == 0
    && -16 <= lake.centerY - (48 * ry + 24) <= 16
    && (hash / 0x1_0000 - (lake.centerY - (48 * ry + 8))) % 33 == 0
    && 5 <= lake.radius <= 11 && (hash / 0x1_0000_0000 - (lake.radius - 5)) % 7 == 0
    && -2000 <= lake.surface <= 2000 && (hash / 0x100_0000_0000 - (lake.surface + 2000)) % 4001 == 0
  }

  lemma ResidueIff33(a: int, b: int)
    requires 0 <= b < 33
    ensures (a - b) % 33 == 0 <==> b == a % 33
  {
  }

  lemma ResidueIff3001(a: int, b: int)
    requires 0 <= b < 3001
    ensures (a - b) % 3001 == 0 <==> b == a % 3001
  {
  }

  lemma ResidueIff7(a: int, b: int)
    requires 0 <= b < 7
    ensures (a - b) % 7 == 0 <==> b == a % 7
  {
  }

  lemma ResidueIff4001(a: int, b: int)
    requires 0 <= b < 4001
    ensures (a - b) % 4001 == 0 <==> b == a % 4001
  {
  }

  lemma SameProduct(a: int)
    ensures a * Lakes.REGION_SIDE == 48 * a
  {
  }

  /** The model's lake is the one drawn, and only that. */
  lemma LakeAtIff(f: Field, rx: i64, ry: i64, lake: Lakes.Lake)
    ensures Lakes.LakeAt(f, rx, ry) == Some(lake) <==> LakeDrawn(f, rx, ry, lake)
  {
    var hash := f.lakeHash(rx, ry);
    SameProduct(rx);
    SameProduct(ry);
    if -16 <= lake.centerX - (48 * rx + 24) <= 16 {
      ResidueIff33(hash / 0x100, lake.centerX - (48 * rx + 8));
    }
    if -16 <= lake.centerY - (48 * ry + 24) <= 16 {
      ResidueIff33(hash / 0x1_0000, lake.centerY - (48 * ry + 8));
    }
    if 5 <= lake.radius <= 11 {
      ResidueIff7(hash / 0x1_0000_0000, lake.radius - 5);
    }
    if -2000 <= lake.surface <= 2000 {
      ResidueIff4001(hash / 0x100_0000_0000, lake.surface + 2000);
    }
  }

  function SquareDistance(x: int, y: int, u: int, v: int): int { (x - u) * (x - u) + (y - v) * (y - v) }

  predicate LakeReaches(f: Field, rx: i64, ry: i64, lake: Lakes.Lake, x: int, y: int) {
    LakeDrawn(f, rx, ry, lake) && Within(lake, x, y)
  }

  /** The order of the search: nearer, then smaller hash, then southern region, then western region. */
  predicate LakeBefore(x: int, y: int, a: Lakes.Lake, aX: int, aY: int, b: Lakes.Lake, bX: int, bY: int) {
    KeyBefore(SquareDistance(x, y, a.centerX, a.centerY), a.hash, aY, aX,
              SquareDistance(x, y, b.centerX, b.centerY), b.hash, bY, bX)
  }

  /** Lexicographic order. */
  predicate KeyBefore(d: int, h: int, v: int, u: int, e: int, g: int, t: int, s: int) {
    d < e || (d == e && (h < g || (h == g && (v < t || (v == t && u < s)))))
  }

  lemma PrecedesByKey(f: Field, x: i64, y: i64, x1: i64, y1: i64, x2: i64, y2: i64)
    requires Lakes.LakeAt(f, x1, y1).Some? && Lakes.LakeAt(f, x2, y2).Some?
    requires Lakes.Precedes(f, x, y, x1, y1, x2, y2)
    ensures var (a, b) := (Lakes.LakeAt(f, x1, y1).value, Lakes.LakeAt(f, x2, y2).value);
            KeyBefore(Lakes.DistanceSquared(a, x, y), a.hash, y1, x1, Lakes.DistanceSquared(b, x, y), b.hash, y2, x2)
  {
  }

  lemma SameDistance(lake: Lakes.Lake, x: i64, y: i64)
    ensures SquareDistance(x, y, lake.centerX, lake.centerY) == Lakes.DistanceSquared(lake, x, y)
  {
  }

  /** `r` is the first lake of the whole plane that reaches the point, if any does. */
  ghost predicate FirstLake(f: Field, x: int, y: int, r: Option<Lakes.Lake>) {
    match r
    case None => forall rx: i64, ry: i64, lake :: !LakeReaches(f, rx, ry, lake, x, y)
    case Some(lake) =>
      exists rx: i64, ry: i64 ::
        && LakeReaches(f, rx, ry, lake, x, y)
        && forall ox: i64, oy: i64, other ::
             LakeReaches(f, ox, oy, other, x, y) && (ox != rx || oy != ry) ==>
               LakeBefore(x, y, lake, rx, ry, other, ox, oy)
  }

  predicate Within(lake: Lakes.Lake, x: int, y: int) {
    SquareDistance(x, y, lake.centerX, lake.centerY) <= lake.radius * lake.radius
  }

  lemma CoversIffWithin(f: Field, rx: i64, ry: i64, lake: Lakes.Lake, x: i64, y: i64)
    requires Lakes.LakeAt(f, rx, ry) == Some(lake)
    ensures Lakes.Covers(f, rx, ry, x, y) <==> Within(lake, x, y)
  {
    SameDistance(lake, x, y);
  }

  lemma ReachesIffCovers(f: Field, rx: i64, ry: i64, lake: Lakes.Lake, x: i64, y: i64)
    ensures LakeReaches(f, rx, ry, lake, x, y)
      <==> Lakes.LakeAt(f, rx, ry) == Some(lake) && Lakes.Covers(f, rx, ry, x, y)
  {
    LakeAtIff(f, rx, ry, lake);
    if Lakes.LakeAt(f, rx, ry) == Some(lake) {
      CoversIffWithin(f, rx, ry, lake, x, y);
    }
  }

  lemma FirstPrecedes(
    f: Field, x: i64, y: i64, rx: i64, ry: i64, lake: Lakes.Lake, ox: i64, oy: i64, other: Lakes.Lake)
    requires Lakes.LakeAt(f, rx, ry) == Some(lake) && Lakes.FirstOfPlane(f, x, y, rx, ry)
    requires Lakes.LakeAt(f, ox, oy) == Some(other) && Lakes.Covers(f, ox, oy, x, y) && (ox != rx || oy != ry)
    ensures LakeBefore(x, y, lake, rx, ry, other, ox, oy)
  {
    PrecedesByKey(f, x, y, rx, ry, ox, oy);
    SameDistance(lake, x, y);
    SameDistance(other, x, y);
  }

  lemma FirstOfPlaneIsFirst(f: Field, x: i64, y: i64, rx: i64, ry: i64, lake: Lakes.Lake)
    requires Lakes.Covers(f, rx, ry, x, y) && Some(lake) == Lakes.LakeAt(f, rx, ry)
    requires Lakes.FirstOfPlane(f, x, y, rx, ry)
    ensures FirstLake(f, x, y, Some(lake))
  {
    ReachesIffCovers(f, rx, ry, lake, x, y);
    forall ox: i64, oy: i64, other | LakeReaches(f, ox, oy, other, x, y) && (ox != rx || oy != ry)
      ensures LakeBefore(x, y, lake, rx, ry, other, ox, oy)
    {
      ReachesIffCovers(f, ox, oy, other, x, y);
      FirstPrecedes(f, x, y, rx, ry, lake, ox, oy, other);
    }
  }

  /** The search over the plane, told from the hashes. */
  lemma SelectedLakeIsFirst(f: Field, x: i64, y: i64, r: Option<Lakes.Lake>)
    requires Lakes.SelectedFromPlane(f, x, y, r)
    ensures FirstLake(f, x, y, r)
  {
    match r
    case None =>
      forall rx: i64, ry: i64, lake
        ensures !LakeReaches(f, rx, ry, lake, x, y)
      {
        ReachesIffCovers(f, rx, ry, lake, x, y);
      }
    case Some(lake) =>
      var rx: i64, ry: i64 :|
        Lakes.Covers(f, rx, ry, x, y) && r == Lakes.LakeAt(f, rx, ry) && Lakes.FirstOfPlane(f, x, y, rx, ry);
      FirstOfPlaneIsFirst(f, x, y, rx, ry, lake);
  }

  // ----- Rivers -----

  /** The sideways offset that an anchor's hash draws, at most 12 points. */
  predicate AnchorDrawn(f: Field, band: i64, anchor: i64, offset: int) {
    -12 <= offset <= 12 && (f.meanderHash(band, anchor) / 0x1_0000 - (offset + 12)) % 25 == 0
  }

  /** `m` is the weighted mean of two offsets 32 rows apart, towards zero. */
  predicate Interpolates(south: int, north: int, rows: int, m: int) {
    var n := south * (32 - rows) + north * rows;
    if n >= 0 then 32 * m <= n < 32 * m + 32 else 32 * m - 32 < n <= 32 * m && m <= 0
  }

  /** The meander of a band at a row: between the anchors of this and the next 32 rows. */
  ghost predicate MeanderDrawn(f: Field, band: i64, y: i64, m: int) {
    exists south, north ::
      && AnchorDrawn(f, band, y / 32, south)
      && AnchorDrawn(f, band, Min(y / 32 + 1, I64_MAX), north)
      && Interpolates(south, north, y % 32, m)
  }

  /** The clamped middle of a band's river before it meanders, at most 16 points from the band's own. */
  ghost predicate BaseDrawn(f: Field, band: i64, base: i64) {
    exists b ::
      && -16 <= b - (96 * band + 48) <= 16 && (f.bandHash(band) / 0x100 - (b - (96 * band + 32))) % 33 == 0
      && base == Clamp(b, I64_MIN, I64_MAX)
  }

  /** The surface of a band's river where it crosses row 0. */
  predicate LevelDrawn(f: Field, band: i64, level: int) {
    -1500 <= level <= 1500 && (f.bandHash(band) / 0x1_0000_0000 - (level + 1500)) % 3001 == 0
  }

  ghost predicate SurfaceDrawn(f: Field, band: i64, y: i64, surface: i32) {
    exists level :: LevelDrawn(f, band, level) && surface == Clamp(level - 25 * y, I32_MIN, I32_MAX)
  }

  ghost predicate CenterDrawn(f: Field, band: i64, y: i64, center: i64) {
    exists base: i64, m :: BaseDrawn(f, band, base) && MeanderDrawn(f, band, y, m)
                           && center == Clamp(base + m, I64_MIN, I64_MAX)
  }

  predicate WidthDrawn(f: Field, band: i64, halfWidth: int) {
    2 <= halfWidth <= 4 && (f.bandHash(band) / 0x100_0000 - (halfWidth - 2)) % 3 == 0
  }

  /** The river of a band at a row: its surface falls 25 to the row. */
  ghost predicate RiverDrawn(f: Field, band: i64, y: i64, river: Rivers.River) {
    && river.hash == f.bandHash(band)
    && WidthDrawn(f, band, river.halfWidth)
    && SurfaceDrawn(f, band, y, river.surface)
    && CenterDrawn(f, band, y, river.centerX)
  }

  lemma AnchorIff(f: Field, band: i64, anchor: i64, offset: int)
    ensures AnchorDrawn(f, band, anchor, offset) <==> offset == Rivers.AnchorOffset(f, band, anchor)
  {
    var v := f.meanderHash(band, anchor) / 0x1_0000;
    if -12 <= offset <= 12 {
      assert (v - (offset + 12)) % 25 == 0 <==> offset + 12 == v % 25;
    }
  }

  lemma InterpolatesIff(south: int, north: int, rows: int, m: int)
    ensures Interpolates(south, north, rows, m) <==> m == Rivers.Interpolated(south, north, rows)
  {
    QuotientIff(south * (32 - rows) + north * rows, m);
  }

  lemma QuotientIff(n: int, m: int)
    ensures m == CarriedDivision.Quot(n, 32)
      <==> if n >= 0 then 32 * m <= n < 32 * m + 32 else 32 * m - 32 < n <= 32 * m && m <= 0
  {
  }

  lemma MeanderIff(f: Field, band: i64, y: i64, m: int)
    ensures MeanderDrawn(f, band, y, m) <==> m == Rivers.Meander(f, band, y)
  {
    var next: i64 := Min(y / 32 + 1, I64_MAX);
    var south, north := Rivers.AnchorOffset(f, band, y / 32), Rivers.AnchorOffset(f, band, next);
    AnchorIff(f, band, y / 32, south);
    AnchorIff(f, band, next, north);
    InterpolatesIff(south, north, y % 32, m);
    if MeanderDrawn(f, band, y, m) {
      var s, n :| AnchorDrawn(f, band, y / 32, s) && AnchorDrawn(f, band, next, n) && Interpolates(s, n, y % 32, m);
      AnchorIff(f, band, y / 32, s);
      AnchorIff(f, band, next, n);
    }
  }

  lemma BaseIff(f: Field, band: i64, base: i64)
    ensures BaseDrawn(f, band, base) <==> base == Saturated(Rivers.BaseCenter(f, band))
  {
    var v := f.bandHash(band) / 0x100;
    var center := Rivers.BaseCenter(f, band);
    assert center == 96 * band + 32 + v % 33;
    assert (v - (center - (96 * band + 32))) % 33 == 0;
    if BaseDrawn(f, band, base) {
      var b :| -16 <= b - (96 * band + 48) <= 16 && (v - (b - (96 * band + 32))) % 33 == 0
        && base == Clamp(b, I64_MIN, I64_MAX);
      ResidueIff33(v, b - (96 * band + 32));
    }
  }

  lemma WidthIff(f: Field, band: i64, y: i64, halfWidth: int)
    ensures WidthDrawn(f, band, halfWidth) <==> halfWidth == Rivers.RiverAt(f, band, y).halfWidth
  {
    var v := f.bandHash(band) / 0x100_0000;
    if 2 <= halfWidth <= 4 {
      assert (v - (halfWidth - 2)) % 3 == 0 <==> halfWidth - 2 == v % 3;
    }
  }

  lemma LevelIff(f: Field, band: i64, level: int)
    ensures LevelDrawn(f, band, level) <==> level == f.bandHash(band) / P32 % 3001 - 1500
  {
    if -1500 <= level <= 1500 {
      ResidueIff3001(f.bandHash(band) / P32, level + 1500);
    }
  }

  lemma SurfaceIff(f: Field, band: i64, y: i64, surface: i32)
    ensures SurfaceDrawn(f, band, y, surface) <==> surface == Rivers.RiverAt(f, band, y).surface
  {
    var level := f.bandHash(band) / P32 % 3001 - 1500;
    LevelIff(f, band, level);
    if SurfaceDrawn(f, band, y, surface) {
      var other :| LevelDrawn(f, band, other) && surface == Clamp(other - 25 * y, I32_MIN, I32_MAX);
      LevelIff(f, band, other);
    }
  }

  lemma CenterIff(f: Field, band: i64, y: i64, center: i64)
    ensures CenterDrawn(f, band, y, center) <==> center == Rivers.RiverAt(f, band, y).centerX
  {
    var base, m := Saturated(Rivers.BaseCenter(f, band)), Rivers.Meander(f, band, y);
    BaseIff(f, band, base);
    MeanderIff(f, band, y, m);
    if CenterDrawn(f, band, y, center) {
      var b: i64, n :| BaseDrawn(f, band, b) && MeanderDrawn(f, band, y, n) && center == Clamp(b + n, I64_MIN, I64_MAX);
      BaseIff(f, band, b);
      MeanderIff(f, band, y, n);
    }
  }

  /** The model's river is the one drawn, and only that. */
  lemma RiverAtIff(f: Field, band: i64, y: i64, river: Rivers.River)
    ensures Rivers.RiverAt(f, band, y) == river <==> RiverDrawn(f, band, y, river)
  {
    WidthIff(f, band, y, river.halfWidth);
    SurfaceIff(f, band, y, river.surface);
    CenterIff(f, band, y, river.centerX);
  }

  predicate RiverReaches(river: Rivers.River, x: int) { Abs(x - river.centerX) <= river.halfWidth }

  /** The order of the search: nearer, then smaller hash, then western band. */
  predicate RiverBefore(x: int, a: Rivers.River, aBand: int, b: Rivers.River, bBand: int) {
    var d, e := Abs(x - a.centerX), Abs(x - b.centerX);
    d < e || (d == e && a.hash < b.hash) || (d == e && a.hash == b.hash && aBand < bBand)
  }

  /** This band's river reaches the point, before that of any other band from `lo` to `hi`. */
  ghost predicate RiverLeads(f: Field, x: i64, y: i64, lo: int, hi: int, band: i64, river: Rivers.River) {
    && lo <= band <= hi && RiverDrawn(f, band, y, river) && RiverReaches(river, x)
    && forall other: i64, rival ::
         lo <= other <= hi && other != band && RiverDrawn(f, other, y, rival) && RiverReaches(rival, x) ==>
           RiverBefore(x, river, band, rival, other)
  }

  /** `r` is the first river of the bands from `lo` to `hi` that reaches the point, if any does. */
  ghost predicate FirstRiver(f: Field, x: i64, y: i64, lo: int, hi: int, r: Option<Rivers.River>) {
    match r
    case None =>
      forall band: i64, river :: lo <= band <= hi && RiverDrawn(f, band, y, river) ==> !RiverReaches(river, x)
    case Some(river) =>
      exists band: i64 :: RiverLeads(f, x, y, lo, hi, band, river)
  }

  lemma RivalPrecedes(f: Field, x: i64, y: i64, band: i64, other: i64, rival: Rivers.River)
    requires RiverDrawn(f, other, y, rival) && RiverReaches(rival, x)
    requires Rivers.Covers(f, other, x, y) ==> Rivers.Precedes(f, x, y, band, other)
    ensures RiverBefore(x, Rivers.RiverAt(f, band, y), band, rival, other)
  {
    RiverAtIff(f, other, y, rival);
  }

  lemma BestIsFirst(f: Field, x: i64, y: i64, lo: int, hi: int, band: i64)
    requires lo <= band <= hi && Rivers.Covers(f, band, x, y)
    requires forall other: i64 :: lo <= other <= hi && Rivers.Covers(f, other, x, y) && other != band ==>
               Rivers.Precedes(f, x, y, band, other)
    ensures FirstRiver(f, x, y, lo, hi, Some(Rivers.RiverAt(f, band, y)))
  {
    var river := Rivers.RiverAt(f, band, y);
    RiverAtIff(f, band, y, river);
    forall other: i64, rival |
      lo <= other <= hi && other != band && RiverDrawn(f, other, y, rival) && RiverReaches(rival, x)
      ensures RiverBefore(x, river, band, rival, other)
    {
      RivalPrecedes(f, x, y, band, other, rival);
    }
    assert RiverLeads(f, x, y, lo, hi, band, river);
  }

  lemma MissesUnlessCovers(f: Field, x: i64, y: i64, band: i64, river: Rivers.River)
    requires RiverDrawn(f, band, y, river) && RiverReaches(river, x)
    ensures Rivers.Covers(f, band, x, y)
  {
    RiverAtIff(f, band, y, river);
  }

  lemma NoneIsFirst(f: Field, x: i64, y: i64, lo: int, hi: int)
    requires forall band: i64 :: lo <= band <= hi ==> !Rivers.Covers(f, band, x, y)
    ensures FirstRiver(f, x, y, lo, hi, None)
  {
    forall band: i64, river | lo <= band <= hi && RiverDrawn(f, band, y, river)
      ensures !RiverReaches(river, x)
    {
      if RiverReaches(river, x) {
        MissesUnlessCovers(f, x, y, band, river);
      }
    }
  }

  /** The search over all bands, told from the hashes. */
  lemma SelectedRiverIsFirst(f: Field, x: i64, y: i64, r: Option<Rivers.River>)
    requires Rivers.SelectedFromAllBands(f, x, y, r)
    ensures FirstRiver(f, x, y, I64_MIN, I64_MAX, r)
  {
    match r
    case None => NoneIsFirst(f, x, y, I64_MIN, I64_MAX);
    case Some(river) =>
      var band: i64 :| Rivers.Covers(f, band, x, y) && river == Rivers.RiverAt(f, band, y)
        && forall other: i64 :: Rivers.Covers(f, other, x, y) && other != band ==>
             Rivers.Precedes(f, x, y, band, other);
      BestIsFirst(f, x, y, I64_MIN, I64_MAX, band);
  }

  /** The search over the three bands, told from the hashes. */
  lemma NearRiverIsFirst(f: Field, x: i64, y: i64)
    ensures FirstNearRiver(f, x, y, Rivers.RiverOf(f, x, y))
  {
    Rivers.BestFromIsBest(f, x, y, x / 96 - 1, 3);
    var best := Rivers.BestAround(f, x, y);
    assert Rivers.BestBand(f, x, y, x / 96 - 1, x / 96 + 2, best);
    match best
    case None => NoneIsFirst(f, x, y, x / 96 - 1, x / 96 + 1);
    case Some(band) => BestIsFirst(f, x, y, x / 96 - 1, x / 96 + 1, band);
  }

  // ----- Each first is the only one -----

  lemma FirstLakeUnique(f: Field, x: int, y: int, r: Option<Lakes.Lake>, s: Option<Lakes.Lake>)
    requires FirstLake(f, x, y, r) && FirstLake(f, x, y, s)
    ensures r == s
  {
    if r.Some? && s.Some? {
      var ax: i64, ay: i64 :| LakeReaches(f, ax, ay, r.value, x, y)
        && forall ox: i64, oy: i64, other :: LakeReaches(f, ox, oy, other, x, y) && (ox != ax || oy != ay) ==>
             LakeBefore(x, y, r.value, ax, ay, other, ox, oy);
      var bx: i64, by': i64 :| LakeReaches(f, bx, by', s.value, x, y)
        && forall ox: i64, oy: i64, other :: LakeReaches(f, ox, oy, other, x, y) && (ox != bx || oy != by') ==>
             LakeBefore(x, y, s.value, bx, by', other, ox, oy);
      if ax == bx && ay == by' {
        LakeAtIff(f, ax, ay, r.value);
        LakeAtIff(f, ax, ay, s.value);
      } else {
        LakeBeforeAsymmetric(x, y, r.value, ax, ay, s.value, bx, by');
      }
    }
  }

  lemma LakeBeforeAsymmetric(x: int, y: int, a: Lakes.Lake, aX: int, aY: int, b: Lakes.Lake, bX: int, bY: int)
    ensures !(LakeBefore(x, y, a, aX, aY, b, bX, bY) && LakeBefore(x, y, b, bX, bY, a, aX, aY))
  {
  }

  lemma LeadersAgree(f: Field, x: i64, y: i64, lo: int, hi: int, a: i64, r: Rivers.River, b: i64, s: Rivers.River)
    requires RiverLeads(f, x, y, lo, hi, a, r) && RiverLeads(f, x, y, lo, hi, b, s)
    ensures a == b
  {
    assert !(RiverBefore(x, r, a, s, b) && RiverBefore(x, s, b, r, a));
  }

  lemma FirstRiverUnique(f: Field, x: i64, y: i64, lo: int, hi: int, r: Option<Rivers.River>, s: Option<Rivers.River>)
    requires FirstRiver(f, x, y, lo, hi, r) && FirstRiver(f, x, y, lo, hi, s)
    ensures r == s
  {
    if r.Some? && s.Some? {
      var a: i64 :| RiverLeads(f, x, y, lo, hi, a, r.value);
      var b: i64 :| RiverLeads(f, x, y, lo, hi, b, s.value);
      LeadersAgree(f, x, y, lo, hi, a, r.value, b, s.value);
      RiverAtIff(f, a, y, r.value);
      RiverAtIff(f, a, y, s.value);
    }
  }

  /** The first river of the three bands around the point. */
  ghost predicate FirstNearRiver(f: Field, x: i64, y: i64, r: Option<Rivers.River>) {
    FirstRiver(f, x, y, x / 96 - 1, x / 96 + 1, r)
  }

  lemma FirstNearRiverUnique(f: Field, x: i64, y: i64, r: Option<Rivers.River>, s: Option<Rivers.River>)
    requires FirstNearRiver(f, x, y, r) && FirstNearRiver(f, x, y, s)
    ensures r == s
  {
    FirstRiverUnique(f, x, y, x / 96 - 1, x / 96 + 1, r, s);
  }
}
