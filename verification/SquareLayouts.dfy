/** A container of squares of one side is always sorted (crates/domain/src/containers.rs). */
module SquareLayouts {
  import opened MachineInts
  import opened Containers
  import opened FreeSlots
  import opened SlotSearch
  import opened ContainerPacking
  import opened ContainerSorting
  import opened SortLayouts

  predicate AllSquares(items: seq<StoredItem>, side: u8) {
    forall i :: 0 <= i < |items| ==> items[i].width == side && items[i].height == side
  }

  // ----- Multiples of the side -----

  function Times(a: nat, w: nat): nat {
    if a == 0 then 0 else Times(a - 1, w) + w
  }

  /** How often `w` goes into `x`. */
  function Steps(x: nat, w: nat): nat
    requires 0 < w
    decreases x
  {
    if x < w then 0 else 1 + Steps(x - w, w)
  }

  lemma {:induction false} StepsWithin(x: nat, w: nat)
    requires 0 < w
    ensures Times(Steps(x, w), w) <= x < Times(Steps(x, w), w) + w
    decreases x
  {
    if w <= x {
      StepsWithin(x - w, w);
    }
  }

  lemma {:induction false} TimesOrder(a: nat, b: nat, w: nat)
    requires a <= b
    ensures Times(a, w) <= Times(b, w)
    decreases b
  {
    if a < b {
      TimesOrder(a, b - 1, w);
    }
  }

  lemma TimesApart(a: nat, b: nat, w: nat)
    requires a < b
    ensures Times(a, w) + w <= Times(b, w)
  {
    TimesOrder(a + 1, b, w);
  }

  /** The multiple that a number lies on or after is the only one. */
  lemma StepsIs(x: nat, q: nat, w: nat)
    requires 0 < w && Times(q, w) <= x < Times(q, w) + w
    ensures Steps(x, w) == q
  {
    StepsWithin(x, w);
    if Steps(x, w) < q {
      TimesApart(Steps(x, w), q, w);
    } else if q < Steps(x, w) {
      TimesApart(q, Steps(x, w), w);
    }
  }

  lemma StepsBelow(x: nat, n: nat, w: nat)
    requires 0 < w && x + w <= n
    ensures Steps(x, w) < Steps(n, w)
  {
    StepsWithin(x, w);
    StepsWithin(n, w);
    if Steps(n, w) <= Steps(x, w) {
      TimesOrder(Steps(n, w), Steps(x, w), w);
    }
  }

  lemma BelowTimes(x: nat, a: nat, w: nat)
    requires 0 < w && x < Times(a, w)
    ensures Steps(x, w) < a
  {
    StepsWithin(x, w);
    if a <= Steps(x, w) {
      TimesOrder(a, Steps(x, w), w);
    }
  }

  // ----- How many squares a grid holds -----

  /** The number of a lattice place, row by row. */
  function Place(row: nat, column: nat, across: nat): nat { Times(row, across) + column }

  lemma PlaceParts(row: nat, column: nat, across: nat)
    requires column < across
    ensures Steps(Place(row, column, across), across) == row
  {
    StepsIs(Place(row, column, across), row, across);
  }

  lemma PlaceBelow(row: nat, column: nat, across: nat, down: nat)
    requires column < across && row < down
    ensures Place(row, column, across) < Times(down, across)
  {
    TimesApart(row, down, across);
  }

  /** How many squares lie on the lattice. */
  function LatticeSize(columns: u8, rows: u8, side: u8): nat
    requires 0 < side
  {
    Times(Steps(rows, side), Steps(columns, side))
  }

  /** The lattice place whose last cell the square covers. */
  function PlaceIn(columns: u8, item: StoredItem, side: u8): nat
    requires 0 < side
  {
    Place(Steps(item.y, side), Steps(item.x, side), Steps(columns, side))
  }

  lemma PlaceInRange(columns: u8, rows: u8, item: StoredItem, side: u8)
    requires 0 < side && item.width == side && item.height == side && InBounds(columns, rows, item)
    ensures Steps(item.x, side) < Steps(columns, side)
    ensures PlaceIn(columns, item, side) < LatticeSize(columns, rows, side)
  {
    StepsBelow(item.x, columns, side);
    StepsBelow(item.y, rows, side);
    PlaceBelow(Steps(item.y, side), Steps(item.x, side), Steps(columns, side), Steps(rows, side));
  }

  /** Squares that do not overlap cover different lattice places. */
  lemma PlacesDiffer(columns: u8, rows: u8, a: StoredItem, b: StoredItem, side: u8)
    requires 0 < side && a.width == a.height == b.width == b.height == side
    requires InBounds(columns, rows, a) && InBounds(columns, rows, b) && !Overlaps(a, b)
    ensures PlaceIn(columns, a, side) != PlaceIn(columns, b, side)
  {
    PlaceInRange(columns, rows, a, side);
    PlaceInRange(columns, rows, b, side);
    PlaceParts(Steps(a.y, side), Steps(a.x, side), Steps(columns, side));
    PlaceParts(Steps(b.y, side), Steps(b.x, side), Steps(columns, side));
    StepsWithin(a.x, side);
    StepsWithin(b.x, side);
    StepsWithin(a.y, side);
    StepsWithin(b.y, side);
  }

  lemma {:induction false} Pigeonhole(places: seq<nat>, n: nat)
    requires forall i :: 0 <= i < |places| ==> places[i] < n
    requires forall i, j :: 0 <= i < j < |places| ==> places[i] != places[j]
    ensures |places| <= n
    decreases n
  {
    if places != [] {
      assert places[0] < n;
      if k :| 0 <= k < |places| && places[k] == n - 1 {
        var rest := places[..k] + places[k + 1..];
        assert forall i :: 0 <= i < |rest| ==> rest[i] == places[if i < k then i else i + 1];
        Pigeonhole(rest, n - 1);
      } else {
        Pigeonhole(places, n - 1);
      }
    }
  }

  lemma SquaresBounded(columns: u8, rows: u8, items: seq<StoredItem>, side: u8)
    requires 0 < side && AllSquares(items, side) && WellPacked(columns, rows, items)
    ensures |items| <= LatticeSize(columns, rows, side)
  {
    var places := seq(|items|, i requires 0 <= i < |items| => PlaceIn(columns, items[i], side));
    forall i | 0 <= i < |items|
      ensures places[i] < LatticeSize(columns, rows, side)
    {
      PlaceInRange(columns, rows, items[i], side);
    }
    forall i, j | 0 <= i < j < |items|
      ensures places[i] != places[j]
    {
      PlacesDiffer(columns, rows, items[i], items[j], side);
    }
    Pigeonhole(places, LatticeSize(columns, rows, side));
  }

  // ----- The search fills the lattice in order -----

  function RowOf(columns: u8, side: u8, k: nat): nat
    requires 0 < side <= columns
  {
    Steps(k, Steps(columns, side))
  }

  function ColumnOf(columns: u8, side: u8, k: nat): (c: nat)
    requires 0 < side <= columns
    ensures c < Steps(columns, side) && Place(RowOf(columns, side, k), c, Steps(columns, side)) == k
  {
    StepsWithin(k, Steps(columns, side));
    k - Times(RowOf(columns, side, k), Steps(columns, side))
  }

  lemma LatticeNotEmpty(columns: u8, rows: u8, side: u8)
    requires 0 < side && 0 < LatticeSize(columns, rows, side)
    ensures side <= columns
  {
    if columns < side {
      TimesZero(Steps(rows, side));
    }
  }

  lemma {:induction false} TimesZero(a: nat)
    ensures Times(a, 0) == 0
  {
    if a > 0 {
      TimesZero(a - 1);
    }
  }

  lemma LatticeInside(columns: u8, rows: u8, side: u8, k: nat)
    requires 0 < side <= columns && k < LatticeSize(columns, rows, side)
    ensures Times(ColumnOf(columns, side, k), side) + side <= columns
    ensures Times(RowOf(columns, side, k), side) + side <= rows
  {
    BelowTimes(k, Steps(rows, side), Steps(columns, side));
    TimesApart(ColumnOf(columns, side, k), Steps(columns, side), side);
    TimesApart(RowOf(columns, side, k), Steps(rows, side), side);
    StepsWithin(columns, side);
    StepsWithin(rows, side);
  }

  function LatticeSpot(columns: u8, rows: u8, side: u8, k: nat): Spot
    requires 0 < side <= columns && k < LatticeSize(columns, rows, side)
  {
    LatticeInside(columns, rows, side, k);
    Spot(Times(ColumnOf(columns, side, k), side), Times(RowOf(columns, side, k), side), false)
  }

  function LatticeSpots(columns: u8, rows: u8, side: u8, n: nat): seq<Spot>
    requires 0 < side <= columns && n <= LatticeSize(columns, rows, side)
  {
    seq(n, k requires 0 <= k < n => LatticeSpot(columns, rows, side, k))
  }

  /** Lattice places are apart. */
  lemma LatticeApart(columns: u8, rows: u8, side: u8, k: nat, m: nat)
    requires 0 < side <= columns && k < m < LatticeSize(columns, rows, side)
    ensures var (a, b) := (LatticeSpot(columns, rows, side, k), LatticeSpot(columns, rows, side, m));
            a.x + side <= b.x || a.y + side <= b.y
  {
    var (row, column) := (RowOf(columns, side, k), ColumnOf(columns, side, k));
    var (row', column') := (RowOf(columns, side, m), ColumnOf(columns, side, m));
    if row < row' {
      TimesApart(row, row', side);
    } else {
      TimesOrder(row', row, Steps(columns, side));
      if row' < row {
        TimesApart(row', row, Steps(columns, side));
      }
      TimesApart(column, column', side);
    }
  }

  /** A square inside the grid that starts before a lattice place touches an earlier one. */
  lemma EarlierTouches(columns: u8, rows: u8, side: u8, k: nat, x: u8, y: u8) returns (m: nat)
    requires 0 < side <= columns && k < LatticeSize(columns, rows, side) && x + side <= columns
    requires var found := LatticeSpot(columns, rows, side, k); y < found.y || (y == found.y && x < found.x)
    ensures m < k
    ensures var spot := LatticeSpot(columns, rows, side, m);
            spot.x <= x < spot.x + side && spot.y <= y < spot.y + side
  {
    var across, row, column := Steps(columns, side), Steps(y, side), Steps(x, side);
    m := Place(row, column, across);
    StepsBelow(x, columns, side);
    StepsWithin(x, side);
    StepsWithin(y, side);
    PlaceParts(row, column, across);
    if y < Times(RowOf(columns, side, k), side) {
      BelowTimes(y, RowOf(columns, side, k), side);
      TimesApart(row, RowOf(columns, side, k), across);
    } else {
      StepsIs(y, RowOf(columns, side, k), side);
      BelowTimes(x, ColumnOf(columns, side, k), side);
    }
  }

  lemma EarlierIsIllegal(columns: u8, rows: u8, items: seq<StoredItem>, side: u8, spot: Spot)
    requires 0 < side <= columns && AllSquares(items, side) && |items| < LatticeSize(columns, rows, side)
    requires Scans(columns, rows, side, side, true, spot)
    requires EarlierThan(spot, LatticeSpot(columns, rows, side, |items|))
    ensures !Legal(columns, rows, LaidOut(items, LatticeSpots(columns, rows, side, |items|)), side, side, spot)
  {
    if spot.x + side <= columns {
      var m := EarlierTouches(columns, rows, side, |items|, spot.x, spot.y);
      assert Overlaps(Candidate(side, side, spot), LaidOut(items, LatticeSpots(columns, rows, side, |items|))[m]);
    }
  }

  lemma LatticeIsLegal(columns: u8, rows: u8, items: seq<StoredItem>, side: u8)
    requires 0 < side <= columns && AllSquares(items, side) && |items| < LatticeSize(columns, rows, side)
    ensures Legal(columns, rows, LaidOut(items, LatticeSpots(columns, rows, side, |items|)), side, side,
                  LatticeSpot(columns, rows, side, |items|))
  {
    var n := |items|;
    var placed := LaidOut(items, LatticeSpots(columns, rows, side, n));
    LatticeInside(columns, rows, side, n);
    forall k | 0 <= k < n
      ensures !Overlaps(Candidate(side, side, LatticeSpot(columns, rows, side, n)), placed[k])
    {
      LatticeApart(columns, rows, side, k, n);
      assert placed[k].x == LatticeSpot(columns, rows, side, k).x
               && placed[k].y == LatticeSpot(columns, rows, side, k).y;
    }
  }

  lemma LatticeIsFirst(columns: u8, rows: u8, items: seq<StoredItem>, side: u8)
    requires 0 < side <= columns && AllSquares(items, side) && |items| < LatticeSize(columns, rows, side)
    ensures FirstLegal(columns, rows, LaidOut(items, LatticeSpots(columns, rows, side, |items|)), side, side, true,
                       Some(LatticeSpot(columns, rows, side, |items|)))
  {
    var placed := LaidOut(items, LatticeSpots(columns, rows, side, |items|));
    var found := LatticeSpot(columns, rows, side, |items|);
    LatticeIsLegal(columns, rows, items, side);
    LatticeInside(columns, rows, side, |items|);
    forall spot | Scans(columns, rows, side, side, true, spot) && Legal(columns, rows, placed, side, side, spot)
      ensures spot == found || EarlierThan(found, spot)
    {
      if EarlierThan(spot, found) {
        EarlierIsIllegal(columns, rows, items, side, spot);
      }
    }
  }

  /** Squares of one side, as many as fit, are laid out on the lattice. */
  lemma SquaresLayOut(columns: u8, rows: u8, items: seq<StoredItem>, side: u8)
    requires 0 < side <= columns && AllSquares(items, side) && |items| <= LatticeSize(columns, rows, side)
    ensures LegalLayout(columns, rows, items, LatticeSpots(columns, rows, side, |items|))
  {
    var spots := LatticeSpots(columns, rows, side, |items|);
    forall i | 0 <= i < |items|
      ensures FirstLegal(columns, rows, LaidOut(items[..i], spots[..i]), items[i].width, items[i].height, true,
                Some(spots[i]))
    {
      LatticeIsFirst(columns, rows, items[..i], side);
      assert spots[..i] == LatticeSpots(columns, rows, side, i);
    }
  }

  /** A packed grid of squares of one side is always sorted, and nothing of it is lost. */
  lemma SquaresAlwaysSort(c: Container, side: u8)
    requires c.content.Grid? && Packed(c) && 0 < side && AllSquares(c.items, side)
    requires SearchSafe(c.content.columns, c.content.rows, side, side, true)
    ensures AutoSorted(c).0.Ok? && multiset(Unplaced(AutoSorted(c).1.items)) == multiset(Unplaced(c.items))
  {
    var sorted := StableSorted(c.items);
    StableSortedIsSorted(c.items);
    assert |multiset(sorted)| == |multiset(c.items)|;
    forall i | 0 <= i < |sorted|
      ensures sorted[i].width == side && sorted[i].height == side
    {
      assert sorted[i] in multiset(c.items);
    }
    SquaresBounded(c.content.columns, c.content.rows, c.items, side);
    if sorted != [] {
      LatticeNotEmpty(c.content.columns, c.content.rows, side);
      SquaresLayOut(c.content.columns, c.content.rows, sorted, side);
    } else {
      assert LegalLayout(c.content.columns, c.content.rows, [], []);
    }
    HasLayoutIffLegal(c.content.columns, c.content.rows, sorted);
    RepacksIffLayout(c.content.columns, c.content.rows, sorted);
    SortPermutesIffOk(c);
  }
}
