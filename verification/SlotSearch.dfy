/** When the first-fit search of a container grid is sound, complete and first
    (crates/domain/src/containers.rs). */
module SlotSearch {
  import opened MachineInts
  import opened Containers
  import opened FreeSlots

  /** `r` is the first legal position, or there is none. */
  ghost predicate FirstLegal(
    columns: u8, rows: u8, items: seq<StoredItem>, width: u8, height: u8, allowRotation: bool, r: Option<Spot>)
  {
    match r
    case None =>
      forall spot :: Scans(columns, rows, width, height, allowRotation, spot) ==>
        !Legal(columns, rows, items, width, height, spot)
    case Some(found) =>
      && Scans(columns, rows, width, height, allowRotation, found) && Legal(columns, rows, items, width, height, found)
      && forall spot ::
           Scans(columns, rows, width, height, allowRotation, spot) && Legal(columns, rows, items, width, height, spot)
           ==> spot == found || EarlierThan(found, spot)
  }

  /** A sum wraps back into the grid while the other axis lets the spot through. */
  predicate WrapsIn(columns: u8, rows: u8, width: u8, height: u8) {
    && columns > 0 && rows > 0
    && ((columns + width > 256 && (height <= rows || rows + height > 256))
        || (rows + height > 256 && (width <= columns || columns + width > 256)))
  }

  predicate SearchSafe(columns: u8, rows: u8, width: u8, height: u8, allowRotation: bool) {
    && !WrapsIn(columns, rows, width, height)
    && !(allowRotation && width != height && WrapsIn(columns, rows, height, width))
  }

  lemma AcceptsIffLegal(columns: u8, rows: u8, items: seq<StoredItem>, width: u8, height: u8, spot: Spot)
    requires spot.x < columns && spot.y < rows
    requires forall i :: 0 <= i < |items| ==> InBounds(columns, rows, items[i])
    requires !WrapsIn(columns, rows, if spot.rotated then height else width, if spot.rotated then width else height)
    ensures Accepts(columns, rows, items, width, height, spot) <==> Legal(columns, rows, items, width, height, spot)
  {
    var candidate := Candidate(width, height, spot);
    if Wrapped(spot.x, candidate.EffectiveWidth()) <= columns && Wrapped(spot.y, candidate.EffectiveHeight()) <= rows {
      FitsUnwrapped(columns, rows, candidate);
      forall i | 0 <= i < |items|
        ensures CollidesWith(candidate, items[i]) == Overlaps(candidate, items[i])
      {
        CollidesIffOverlaps(columns, rows, candidate, items[i]);
      }
    }
  }

  lemma FitsUnwrapped(columns: u8, rows: u8, item: StoredItem)
    requires item.x < columns && item.y < rows && !WrapsIn(columns, rows, item.EffectiveWidth(), item.EffectiveHeight())
    requires Wrapped(item.x, item.EffectiveWidth()) <= columns && Wrapped(item.y, item.EffectiveHeight()) <= rows
    ensures InBounds(columns, rows, item)
  {
  }

  lemma CollidesIffOverlaps(columns: u8, rows: u8, a: StoredItem, b: StoredItem)
    requires InBounds(columns, rows, a) && InBounds(columns, rows, b)
    ensures CollidesWith(a, b) == Overlaps(a, b)
  {
  }

  /** The search is sound and complete, and finds the first legal position, when no sum wraps. */
  lemma SearchExact(columns: u8, rows: u8, items: seq<StoredItem>, width: u8, height: u8, allowRotation: bool)
    requires WellPacked(columns, rows, items) && SearchSafe(columns, rows, width, height, allowRotation)
    ensures FirstLegal(columns, rows, items, width, height, allowRotation,
              FreeSlot(columns, rows, items, width, height, allowRotation))
  {
    SlotFromIsAccepted(columns, rows, items, width, height, allowRotation, 0, 0);
    var r := FreeSlot(columns, rows, items, width, height, allowRotation);
    if r.Some? {
      AcceptsIffLegal(columns, rows, items, width, height, r.value);
    }
    forall spot | Scans(columns, rows, width, height, allowRotation, spot)
      && Legal(columns, rows, items, width, height, spot)
      ensures r.Some? && (r.value == spot || EarlierThan(r.value, spot))
    {
      AcceptsIffLegal(columns, rows, items, width, height, spot);
      SlotFromIsFirst(columns, rows, items, width, height, allowRotation, 0, 0, spot);
    }
  }

  lemma FullGridHasNoLegalSpot(columns: u8, rows: u8, width: u8, height: u8, spot: Spot)
    requires width > 0 && height > 0 && spot.x < columns && spot.y < rows
    ensures !Legal(columns, rows, [Filler(columns, rows)], width, height, spot)
  {
    assert Overlaps(Candidate(width, height, spot), [Filler(columns, rows)][0]);
  }

  /** The spot whose wrapped sum is zero. */
  function WrappedSpot(columns: u8, rows: u8, width: u8, height: u8, rotated: bool): Spot {
    var w, h := if rotated then height else width, if rotated then width else height;
    Spot(if columns + w > 256 then 256 - w else 0, if rows + h > 256 then 256 - h else 0, rotated)
  }

  lemma FullGridAcceptsWrapped(columns: u8, rows: u8, width: u8, height: u8, rotated: bool)
    requires width > 0 && height > 0
    requires WrapsIn(columns, rows, if rotated then height else width, if rotated then width else height)
    ensures var spot := WrappedSpot(columns, rows, width, height, rotated);
            && spot.x < columns && spot.y < rows
            && Accepts(columns, rows, [Filler(columns, rows)], width, height, spot)
  {
  }

  /** In a full grid the search finds a position although there is none. */
  lemma WrapsIntoFullGrid(columns: u8, rows: u8, width: u8, height: u8, allowRotation: bool, rotated: bool)
    requires width > 0 && height > 0 && (rotated ==> allowRotation && width != height)
    requires WrapsIn(columns, rows, if rotated then height else width, if rotated then width else height)
    ensures var full := [Filler(columns, rows)];
            && WellPacked(columns, rows, full)
            && !FirstLegal(columns, rows, full, width, height, allowRotation,
                           FreeSlot(columns, rows, full, width, height, allowRotation))
  {
    var full := [Filler(columns, rows)];
    var spot := WrappedSpot(columns, rows, width, height, rotated);
    FullGridAcceptsWrapped(columns, rows, width, height, rotated);
    SlotFromIsFirst(columns, rows, full, width, height, allowRotation, 0, 0, spot);
    SlotFromIsAccepted(columns, rows, full, width, height, allowRotation, 0, 0);
    FullGridHasNoLegalSpot(columns, rows, width, height,
      FreeSlot(columns, rows, full, width, height, allowRotation).value);
  }

  /** One item that fills the grid. */
  function Filler(columns: u8, rows: u8): StoredItem {
    StoredItem(1, 0, General, 0, 1, 1, columns, rows, 0, 0, false)
  }

  /** The item fits at the origin of an empty grid, upright or turned. */
  predicate FitsAtOrigin(columns: u8, rows: u8, width: u8, height: u8, allowRotation: bool) {
    && columns > 0 && rows > 0
    && ((width <= columns && height <= rows)
        || (allowRotation && width != height && height <= columns && width <= rows))
  }

  /** No orientation of the item wraps into the grid, or it is empty and the search ends at the origin. */
  predicate SearchesExactly(columns: u8, rows: u8, width: u8, height: u8, allowRotation: bool) {
    || SearchSafe(columns, rows, width, height, allowRotation)
    || ((width == 0 || height == 0) && FitsAtOrigin(columns, rows, width, height, allowRotation))
  }

  /** An empty item overlaps nothing at the origin. */
  lemma EmptyItemAtOrigin(columns: u8, rows: u8, items: seq<StoredItem>, width: u8, height: u8, allowRotation: bool)
    requires (width == 0 || height == 0) && FitsAtOrigin(columns, rows, width, height, allowRotation)
    ensures FirstLegal(columns, rows, items, width, height, allowRotation,
                       FreeSlot(columns, rows, items, width, height, allowRotation))
  {
    var found := Spot(0, 0, !(width <= columns && height <= rows));
    assert Accepts(columns, rows, items, width, height, found) && Legal(columns, rows, items, width, height, found);
    SlotFromIsFirst(columns, rows, items, width, height, allowRotation, 0, 0, found);
    SlotFromIsAccepted(columns, rows, items, width, height, allowRotation, 0, 0);
  }

  /** An empty item that fits nowhere is given a position when it wraps. */
  lemma EmptyItemWraps(columns: u8, rows: u8, width: u8, height: u8, allowRotation: bool, rotated: bool)
    requires !FitsAtOrigin(columns, rows, width, height, allowRotation)
    requires rotated ==> allowRotation && width != height
    requires WrapsIn(columns, rows, if rotated then height else width, if rotated then width else height)
    ensures !FirstLegal(columns, rows, [], width, height, allowRotation,
                        FreeSlot(columns, rows, [], width, height, allowRotation))
  {
    var spot := WrappedSpot(columns, rows, width, height, rotated);
    EmptyGridAcceptsWrapped(columns, rows, width, height, rotated);
    SlotFromIsFirst(columns, rows, [], width, height, allowRotation, 0, 0, spot);
    NothingLegal(columns, rows, width, height, allowRotation);
  }

  lemma EmptyGridAcceptsWrapped(columns: u8, rows: u8, width: u8, height: u8, rotated: bool)
    requires WrapsIn(columns, rows, if rotated then height else width, if rotated then width else height)
    ensures var spot := WrappedSpot(columns, rows, width, height, rotated);
            spot.x < columns && spot.y < rows && Accepts(columns, rows, [], width, height, spot)
  {
  }

  /** What does not fit at the origin fits nowhere. */
  lemma NothingLegal(columns: u8, rows: u8, width: u8, height: u8, allowRotation: bool)
    requires !FitsAtOrigin(columns, rows, width, height, allowRotation)
    ensures forall spot :: Scans(columns, rows, width, height, allowRotation, spot) ==>
              !Legal(columns, rows, [], width, height, spot)
  {
  }

  /** The search is exact on all packed grids of this size exactly when no orientation of the item wraps
      into it, or the item is empty and fits at the origin. */
  lemma SearchExactIff(columns: u8, rows: u8, width: u8, height: u8, allowRotation: bool)
    ensures SearchesExactly(columns, rows, width, height, allowRotation) <==>
              forall items :: WellPacked(columns, rows, items) ==>
                FirstLegal(columns, rows, items, width, height, allowRotation,
                           FreeSlot(columns, rows, items, width, height, allowRotation))
  {
    if SearchesExactly(columns, rows, width, height, allowRotation) {
      forall items | WellPacked(columns, rows, items)
        ensures FirstLegal(columns, rows, items, width, height, allowRotation,
                           FreeSlot(columns, rows, items, width, height, allowRotation))
      {
        if SearchSafe(columns, rows, width, height, allowRotation) {
          SearchExact(columns, rows, items, width, height, allowRotation);
        } else {
          EmptyItemAtOrigin(columns, rows, items, width, height, allowRotation);
        }
      }
    } else {
      WrapsSomewhere(columns, rows, width, height, allowRotation);
    }
  }

  lemma WrapsSomewhere(columns: u8, rows: u8, width: u8, height: u8, allowRotation: bool)
    requires !SearchesExactly(columns, rows, width, height, allowRotation)
    ensures exists items :: WellPacked(columns, rows, items) &&
              !FirstLegal(columns, rows, items, width, height, allowRotation,
                          FreeSlot(columns, rows, items, width, height, allowRotation))
  {
    var rotated := !WrapsIn(columns, rows, width, height);
    if width == 0 || height == 0 {
      EmptyItemWraps(columns, rows, width, height, allowRotation, rotated);
      assert WellPacked(columns, rows, []);
    } else {
      WrapsIntoFullGrid(columns, rows, width, height, allowRotation, rotated);
    }
  }

  /** Grids and items of at most 128 a side are always searched exactly. */
  lemma SmallGridsAreSafe(columns: u8, rows: u8, width: u8, height: u8, allowRotation: bool)
    requires columns <= 128 && rows <= 128 && width <= 128 && height <= 128
    ensures SearchSafe(columns, rows, width, height, allowRotation)
  {
  }

  method FindFreeSlot(columns: u8, rows: u8, items: seq<StoredItem>, width: u8, height: u8, allowRotation: bool)
    returns (r: Option<Spot>)
    ensures r == FreeSlot(columns, rows, items, width, height, allowRotation)
    ensures WellPacked(columns, rows, items) && SearchSafe(columns, rows, width, height, allowRotation) ==>
              FirstLegal(columns, rows, items, width, height, allowRotation, r)
  {
    if WellPacked(columns, rows, items) && SearchSafe(columns, rows, width, height, allowRotation) {
      SearchExact(columns, rows, items, width, height, allowRotation);
    }
    var y := 0;
    while y < rows
      invariant 0 <= y <= rows
      invariant FreeSlot(columns, rows, items, width, height, allowRotation)
                == SlotFrom(columns, rows, items, width, height, allowRotation, 0, y)
    {
      var x := 0;
      while x < columns
        invariant 0 <= x <= columns
        invariant FreeSlot(columns, rows, items, width, height, allowRotation)
                  == SlotFrom(columns, rows, items, width, height, allowRotation, x, y)
      {
        var upright := TestSpot(columns, rows, items, width, height, Spot(x, y, false));
        if upright {
          return Some(Spot(x, y, false));
        }
        if allowRotation && width != height {
          var turned := TestSpot(columns, rows, items, width, height, Spot(x, y, true));
          if turned {
            return Some(Spot(x, y, true));
          }
        }
        x := x + 1;
      }
      y := y + 1;
    }
    r := None;
  }

  method TestSpot(columns: u8, rows: u8, items: seq<StoredItem>, width: u8, height: u8, spot: Spot)
    returns (accepted: bool)
    ensures accepted == Accepts(columns, rows, items, width, height, spot)
  {
    var candidate := Candidate(width, height, spot);
    if Wrapped(spot.x, candidate.EffectiveWidth()) > columns || Wrapped(spot.y, candidate.EffectiveHeight()) > rows {
      return false;
    }
    for i := 0 to |items|
      invariant forall k :: 0 <= k < i ==> !CollidesWith(candidate, items[k])
    {
      if CollidesWith(candidate, items[i]) {
        return false;
      }
    }
    accepted := true;
  }
}
