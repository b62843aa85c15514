/** First-fit search for a free position in a container grid (crates/domain/src/containers.rs).
    Sums of 8-bit coordinates wrap, as they do in an optimized build; a build with overflow checks
    stops there instead. */
module FreeSlots {
  import opened MachineInts
  import opened Containers

  datatype Spot = Spot(x: u8, y: u8, rotated: bool)

  function Wrapped(a: u8, b: u8): u8 { (a + b) % 256 }

  /** The collision test with wrapping sums. */
  predicate CollidesWith(a: StoredItem, b: StoredItem) {
    && a.x < Wrapped(b.x, b.EffectiveWidth()) && Wrapped(a.x, a.EffectiveWidth()) > b.x
    && a.y < Wrapped(b.y, b.EffectiveHeight()) && Wrapped(a.y, a.EffectiveHeight()) > b.y
  }

  /** The rectangles overlap. */
  predicate Overlaps(a: StoredItem, b: StoredItem) {
    && a.x < b.x + b.EffectiveWidth() && a.x + a.EffectiveWidth() > b.x
    && a.y < b.y + b.EffectiveHeight() && a.y + a.EffectiveHeight() > b.y
  }

  predicate InBounds(columns: u8, rows: u8, item: StoredItem) {
    item.x + item.EffectiveWidth() <= columns && item.y + item.EffectiveHeight() <= rows
  }

  /** Every item lies in the grid and no two overlap. */
  predicate WellPacked(columns: u8, rows: u8, items: seq<StoredItem>) {
    && (forall i :: 0 <= i < |items| ==> InBounds(columns, rows, items[i]))
    && (forall i, j :: 0 <= i < j < |items| ==> !Overlaps(items[i], items[j]))
  }

  lemma OverlapsSymmetric(a: StoredItem, b: StoredItem)
    ensures Overlaps(a, b) == Overlaps(b, a)
  {
  }

  /** Rectangles that are not empty overlap exactly when they share a cell. */
  lemma OverlapIffSharedCell(a: StoredItem, b: StoredItem)
    requires a.EffectiveWidth() > 0 && a.EffectiveHeight() > 0 && b.EffectiveWidth() > 0 && b.EffectiveHeight() > 0
    ensures Overlaps(a, b) <==> exists x: int, y: int :: InCell(a, x, y) && InCell(b, x, y)
  {
    if Overlaps(a, b) {
      assert InCell(a, Max(a.x, b.x), Max(a.y, b.y)) && InCell(b, Max(a.x, b.x), Max(a.y, b.y));
    }
  }

  predicate InCell(item: StoredItem, x: int, y: int) {
    item.x <= x < item.x + item.EffectiveWidth() && item.y <= y < item.y + item.EffectiveHeight()
  }

  function Candidate(width: u8, height: u8, spot: Spot): StoredItem {
    StoredItem(0, 0, General, 0, 1, 1, width, height, spot.x, spot.y, spot.rotated)
  }

  predicate Scans(columns: u8, rows: u8, width: u8, height: u8, allowRotation: bool, spot: Spot) {
    spot.x < columns && spot.y < rows && (spot.rotated ==> allowRotation && width != height)
  }

  /** The test the search makes at one spot. */
  predicate Accepts(columns: u8, rows: u8, items: seq<StoredItem>, width: u8, height: u8, spot: Spot) {
    var candidate := Candidate(width, height, spot);
    && Wrapped(spot.x, candidate.EffectiveWidth()) <= columns
    && Wrapped(spot.y, candidate.EffectiveHeight()) <= rows
    && forall i :: 0 <= i < |items| ==> !CollidesWith(candidate, items[i])
  }

  /** A position where the item would lie in the grid and overlap nothing. */
  predicate Legal(columns: u8, rows: u8, items: seq<StoredItem>, width: u8, height: u8, spot: Spot) {
    var candidate := Candidate(width, height, spot);
    && InBounds(columns, rows, candidate)
    && forall i :: 0 <= i < |items| ==> !Overlaps(candidate, items[i])
  }

  /** Row by row, and at each point unrotated first. */
  predicate EarlierThan(a: Spot, b: Spot) {
    a.y < b.y || (a.y == b.y && (a.x < b.x || (a.x == b.x && !a.rotated && b.rotated)))
  }

  /** The first accepted spot at or after `(x, y)`. */
  function SlotFrom(columns: u8, rows: u8, items: seq<StoredItem>, width: u8, height: u8, allowRotation: bool,
                    x: nat, y: nat): Option<Spot>
    requires x <= columns && y <= rows
    decreases rows - y, columns - x
  {
    if y == rows then None
    else if x == columns then SlotFrom(columns, rows, items, width, height, allowRotation, 0, y + 1)
    else if Accepts(columns, rows, items, width, height, Spot(x, y, false)) then Some(Spot(x, y, false))
    else if allowRotation && width != height && Accepts(columns, rows, items, width, height, Spot(x, y, true))
    then Some(Spot(x, y, true))
    else SlotFrom(columns, rows, items, width, height, allowRotation, x + 1, y)
  }

  function FreeSlot(columns: u8, rows: u8, items: seq<StoredItem>, width: u8, height: u8, allowRotation: bool)
    : Option<Spot>
  {
    SlotFrom(columns, rows, items, width, height, allowRotation, 0, 0)
  }

  predicate AtOrAfter(spot: Spot, x: nat, y: nat) { spot.y > y || (spot.y == y && spot.x >= x) }

  lemma {:induction false} SlotFromIsFirst(
    columns: u8, rows: u8, items: seq<StoredItem>, width: u8, height: u8, allowRotation: bool, x: nat, y: nat,
    spot: Spot)
    requires x <= columns && y <= rows
    requires Scans(columns, rows, width, height, allowRotation, spot) && AtOrAfter(spot, x, y)
    requires Accepts(columns, rows, items, width, height, spot)
    ensures var r := SlotFrom(columns, rows, items, width, height, allowRotation, x, y);
            r.Some? && (r.value == spot || EarlierThan(r.value, spot))
    decreases rows - y, columns - x
  {
    if y < rows {
      if x == columns {
        SlotFromIsFirst(columns, rows, items, width, height, allowRotation, 0, y + 1, spot);
      } else if spot.x != x || spot.y != y {
        SlotFromIsFirst(columns, rows, items, width, height, allowRotation, x + 1, y, spot);
      }
    }
  }

  lemma {:induction false} SlotFromIsAccepted(
    columns: u8, rows: u8, items: seq<StoredItem>, width: u8, height: u8, allowRotation: bool, x: nat, y: nat)
    requires x <= columns && y <= rows
    ensures var r := SlotFrom(columns, rows, items, width, height, allowRotation, x, y);
            r.Some? ==> && Scans(columns, rows, width, height, allowRotation, r.value) && AtOrAfter(r.value, x, y)
                        && Accepts(columns, rows, items, width, height, r.value)
    decreases rows - y, columns - x
  {
    if y < rows {
      if x == columns {
        SlotFromIsAccepted(columns, rows, items, width, height, allowRotation, 0, y + 1);
      } else {
        SlotFromIsAccepted(columns, rows, items, width, height, allowRotation, x + 1, y);
      }
    }
  }
}
