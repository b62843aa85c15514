/** The inventory grid: a matrix of cells and a map of placements kept in agreement
    (crates/domain/src/items.rs). */
module InventoryGrids {
  import opened MachineInts
  import opened GridIndex

  datatype Rotation = Normal | Rotated90

  datatype Dimensions = Dimensions(width: u8, height: u8) {
    function Oriented(rotation: Rotation): Dimensions {
      if rotation == Normal then this else Dimensions(height, width)
    }
  }

  datatype Slot = Slot(x: u8, y: u8)

  datatype Placement = Placement(origin: Slot, rotation: Rotation, dimensions: Dimensions) {
    function Extent(): Dimensions { dimensions.Oriented(rotation) }

    predicate Holds(x: int, y: int) {
      origin.x <= x < origin.x + Extent().width && origin.y <= y < origin.y + Extent().height
    }

    predicate IsEmpty() { Extent().width == 0 || Extent().height == 0 }
  }

  datatype PlacementError = OutOfBounds | Collision

  datatype GridView = GridView(columns: u8, rows: u8, cells: seq<Option<u64>>, placements: map<u64, Placement>) {
    predicate Sized() { |cells| == columns * rows }

    predicate Inside(x: int, y: int) { 0 <= x < columns && 0 <= y < rows }

    function CellAt(x: int, y: int): Option<u64>
      requires Sized() && Inside(x, y)
    {
      AtInside(columns, x, y, rows);
      cells[At(columns, x, y)]
    }

    /** A cell holds an id exactly when it lies in that id's rectangle. */
    ghost predicate Agrees() {
      && Sized()
      && (forall x, y, id :: Inside(x, y) ==>
            (CellAt(x, y) == Some(id) <==> id in placements && placements[id].Holds(x, y)))
      && (forall id :: id in placements ==> Fits(placements[id]) || placements[id].IsEmpty())
    }

    /** The rectangle lies within the grid. */
    predicate Fits(p: Placement) {
      p.origin.x + p.Extent().width <= columns && p.origin.y + p.Extent().height <= rows
    }

    /** The test the code makes, with sums that saturate at 255. */
    predicate SaturatedFits(p: Placement) {
      Min(p.origin.x + p.Extent().width, 255) <= columns && Min(p.origin.y + p.Extent().height, 255) <= rows
    }

    predicate FreeFor(x: int, y: int, ignored: Option<u64>)
      requires Sized() && Inside(x, y)
    {
      CellAt(x, y) == None || (ignored.Some? && CellAt(x, y) == ignored)
    }

    /** Every cell of the rectangle is in the grid and free. */
    ghost predicate Clear(p: Placement, ignored: Option<u64>)
      requires Sized()
    {
      forall x, y :: p.Holds(x, y) ==> Inside(x, y) && FreeFor(x, y, ignored)
    }

    ghost predicate Placeable(p: Placement, ignored: Option<u64>)
      requires Sized()
    {
      SaturatedFits(p) && Clear(p, ignored)
    }

    /** Placing is allowed exactly when the rectangle fits and is free, except that an empty
        rectangle may also hang over the edge of a side of 255, where the sum saturates. */
    lemma PlaceableIff(p: Placement, ignored: Option<u64>)
      requires Sized()
      ensures Placeable(p, ignored) <==>
                (Fits(p) && Clear(p, ignored)) || (!Fits(p) && p.IsEmpty() && SaturatedFits(p))
      ensures !Fits(p) && SaturatedFits(p) ==> columns == 255 || rows == 255
    {
      if Placeable(p, ignored) && !p.IsEmpty() {
        var far := (p.origin.x + p.Extent().width - 1, p.origin.y + p.Extent().height - 1);
        assert p.Holds(far.0, far.1);
      }
    }

    /** After `Placed`, the rectangle belongs to the id and everything else is as before. */
    ghost predicate Placed(id: u64, p: Placement, after: GridView)
      requires Sized() && after.Sized()
    {
      && after.columns == columns && after.rows == rows
      && after.placements == placements[id := p]
      && forall x, y :: Inside(x, y) ==> after.CellAt(x, y) == if p.Holds(x, y) then Some(id) else CellAt(x, y)
    }

    ghost predicate Removed(id: u64, after: GridView)
      requires Sized() && after.Sized() && id in placements
    {
      && after.columns == columns && after.rows == rows
      && after.placements == placements - {id}
      && forall x, y :: Inside(x, y) ==>
           after.CellAt(x, y) == if placements[id].Holds(x, y) && CellAt(x, y) == Some(id) then None else CellAt(x, y)
    }

    ghost predicate Moved(id: u64, p: Placement, after: GridView)
      requires Sized() && after.Sized()
    {
      && after.columns == columns && after.rows == rows
      && after.placements == placements[id := p]
      && forall x, y :: Inside(x, y) ==>
           after.CellAt(x, y) ==
             if p.Holds(x, y) then Some(id) else if CellAt(x, y) == Some(id) then None else CellAt(x, y)
    }

    lemma PlacingKeepsAgreement(id: u64, p: Placement, after: GridView)
      requires Agrees() && after.Sized() && id !in placements
      requires Placeable(p, None) && Placed(id, p, after)
      ensures after.Agrees()
    {
      PlaceableIff(p, None);
      forall x, y, other | after.Inside(x, y)
        ensures after.CellAt(x, y) == Some(other) <==> other in after.placements && after.placements[other].Holds(x, y)
      {
        assert p.Holds(x, y) ==> CellAt(x, y) == None;
        assert CellAt(x, y) == Some(other) <==> other in placements && placements[other].Holds(x, y);
      }
    }

    lemma RemovingKeepsAgreement(id: u64, after: GridView)
      requires Agrees() && after.Sized() && id in placements && Removed(id, after)
      ensures after.Agrees()
    {
      forall x, y, other | after.Inside(x, y)
        ensures after.CellAt(x, y) == Some(other) <==> other in after.placements && after.placements[other].Holds(x, y)
      {
        assert CellAt(x, y) == Some(other) <==> other in placements && placements[other].Holds(x, y);
        assert CellAt(x, y) == Some(id) <==> placements[id].Holds(x, y);
      }
    }

    /** Once an item may be placed while its own cells are ignored, it may be placed after it has
        been taken out. */
    lemma RemovedMakesRoom(id: u64, p: Placement, without: GridView)
      requires Agrees() && without.Sized() && id in placements && Removed(id, without)
      requires Placeable(p, Some(id))
      ensures without.Placeable(p, None)
    {
      forall x, y | p.Holds(x, y)
        ensures without.Inside(x, y) && without.FreeFor(x, y, None)
      {
        assert Inside(x, y) && FreeFor(x, y, Some(id));
        assert CellAt(x, y) == Some(id) ==> placements[id].Holds(x, y);
      }
    }

    lemma RemoveThenPlaceMoves(id: u64, p: Placement, without: GridView, after: GridView)
      requires Agrees() && without.Sized() && after.Sized() && id in placements
      requires Removed(id, without) && without.Placed(id, p, after)
      ensures Moved(id, p, after)
    {
      forall x, y | Inside(x, y)
        ensures after.CellAt(x, y) ==
                  if p.Holds(x, y) then Some(id) else if CellAt(x, y) == Some(id) then None else CellAt(x, y)
      {
        assert CellAt(x, y) == Some(id) ==> placements[id].Holds(x, y);
      }
      assert (placements - {id})[id := p] == placements[id := p];
    }

    /** Placing an id that is already placed breaks the agreement, unless its old cells all lie in
        the new rectangle. */
    lemma PlacingTwiceAgreesIff(id: u64, p: Placement, after: GridView)
      requires Agrees() && after.Sized() && id in placements
      requires Placeable(p, None) && Placed(id, p, after)
      ensures after.Agrees() <==> forall x, y :: Inside(x, y) && placements[id].Holds(x, y) ==> p.Holds(x, y)
    {
      PlaceableIff(p, None);
      if forall x, y :: Inside(x, y) && placements[id].Holds(x, y) ==> p.Holds(x, y) {
        forall x, y, other | after.Inside(x, y)
          ensures after.CellAt(x, y) == Some(other) <==>
                    other in after.placements && after.placements[other].Holds(x, y)
        {
          assert p.Holds(x, y) ==> CellAt(x, y) == None;
          assert CellAt(x, y) == Some(other) <==> other in placements && placements[other].Holds(x, y);
        }
      } else {
        var x, y :| Inside(x, y) && placements[id].Holds(x, y) && !p.Holds(x, y);
        assert CellAt(x, y) == Some(id);
        assert after.CellAt(x, y) == Some(id);
      }
    }
  }

  // ----- Placing and removing on values -----

  function WithPlaced(g: GridView, id: u64, p: Placement): GridView
    requires g.Sized()
  {
    if g.columns == 0 then g.(placements := g.placements[id := p])
    else
      GridView(g.columns, g.rows,
               seq(|g.cells|, i requires 0 <= i < |g.cells| =>
                 if p.Holds(i % g.columns, i / g.columns) then Some(id) else g.cells[i]),
               g.placements[id := p])
  }

  function Without(g: GridView, id: u64): GridView
    requires g.Sized()
  {
    if id !in g.placements then g
    else if g.columns == 0 then g.(placements := g.placements - {id})
    else
      GridView(g.columns, g.rows,
               seq(|g.cells|, i requires 0 <= i < |g.cells| =>
                 if g.placements[id].Holds(i % g.columns, i / g.columns) && g.cells[i] == Some(id)
                 then None else g.cells[i]),
               g.placements - {id})
  }

  lemma WithPlacedIsPlaced(g: GridView, id: u64, p: Placement)
    requires g.Sized()
    ensures WithPlaced(g, id, p).Sized() && g.Placed(id, p, WithPlaced(g, id, p))
  {
    forall x, y | g.Inside(x, y)
      ensures WithPlaced(g, id, p).CellAt(x, y) == if p.Holds(x, y) then Some(id) else g.CellAt(x, y)
    {
      AtDecomposes(g.columns, x, y, g.rows);
    }
  }

  lemma WithoutIsRemoved(g: GridView, id: u64)
    requires g.Sized() && id in g.placements
    ensures Without(g, id).Sized() && g.Removed(id, Without(g, id))
  {
    forall x, y | g.Inside(x, y)
      ensures Without(g, id).CellAt(x, y) ==
                if g.placements[id].Holds(x, y) && g.CellAt(x, y) == Some(id) then None else g.CellAt(x, y)
    {
      AtDecomposes(g.columns, x, y, g.rows);
    }
  }

  // ----- The grid -----

  /** The offsets scanned before `(dx, dy)`, row by row. */
  predicate Scanned(p: Placement, dx: int, dy: int, x: int, y: int) {
    p.Holds(x, y) && (y < p.origin.y + dy || (y == p.origin.y + dy && x < p.origin.x + dx))
  }

  /** `cells` with the scanned part of the rectangle rewritten. */
  ghost predicate Rewritten(g: GridView, cells: seq<Option<u64>>, p: Placement, dx: int, dy: int,
                            f: Option<u64> -> Option<u64>)
    requires g.Sized()
  {
    && |cells| == |g.cells|
    && forall x, y :: g.Inside(x, y) ==>
         GridView(g.columns, g.rows, cells, map[]).CellAt(x, y)
         == if Scanned(p, dx, dy, x, y) then f(g.CellAt(x, y)) else g.CellAt(x, y)
  }

  lemma RewriteOne(g: GridView, cells: seq<Option<u64>>, p: Placement, dx: nat, dy: nat, f: Option<u64> -> Option<u64>)
    requires g.Sized() && Rewritten(g, cells, p, dx, dy, f)
    requires dx < p.Extent().width && dy < p.Extent().height
    requires g.Inside(p.origin.x + dx, p.origin.y + dy)
    ensures var i := At(g.columns, p.origin.x + dx, p.origin.y + dy);
            && 0 <= i < |cells| && cells[i] == g.CellAt(p.origin.x + dx, p.origin.y + dy)
            && Rewritten(g, cells[i := f(cells[i])], p, dx + 1, dy, f)
  {
    var i := At(g.columns, p.origin.x + dx, p.origin.y + dy);
    AtInside(g.columns, p.origin.x + dx, p.origin.y + dy, g.rows);
    assert GridView(g.columns, g.rows, cells, map[]).CellAt(p.origin.x + dx, p.origin.y + dy) == cells[i];
    var after := cells[i := f(cells[i])];
    forall x, y | g.Inside(x, y)
      ensures GridView(g.columns, g.rows, after, map[]).CellAt(x, y)
              == if Scanned(p, dx + 1, dy, x, y) then f(g.CellAt(x, y)) else g.CellAt(x, y)
    {
      AtInside(g.columns, x, y, g.rows);
      assert GridView(g.columns, g.rows, cells, map[]).CellAt(x, y) == cells[At(g.columns, x, y)];
      if At(g.columns, x, y) == i {
        AtInjective(g.columns, x, y, p.origin.x + dx, p.origin.y + dy);
      }
    }
  }

  lemma EmptyGridAgrees(g: GridView)
    requires g.Sized() && g.placements == map[]
    requires forall i :: 0 <= i < |g.cells| ==> g.cells[i] == None
    ensures g.Agrees()
  {
    forall x, y, id | g.Inside(x, y)
      ensures g.CellAt(x, y) == Some(id) <==> id in g.placements && g.placements[id].Holds(x, y)
    {
      AtInside(g.columns, x, y, g.rows);
    }
  }

  lemma FilledIsPlaced(g: GridView, cells: seq<Option<u64>>, id: u64, p: Placement)
    requires g.Sized() && Rewritten(g, cells, p, 0, p.Extent().height, c => Some(id))
    ensures g.Placed(id, p, GridView(g.columns, g.rows, cells, g.placements[id := p]))
  {
    var after := GridView(g.columns, g.rows, cells, g.placements[id := p]);
    forall x, y | g.Inside(x, y)
      ensures after.CellAt(x, y) == if p.Holds(x, y) then Some(id) else g.CellAt(x, y)
    {
      assert after.CellAt(x, y) == GridView(g.columns, g.rows, cells, map[]).CellAt(x, y);
    }
  }

  function Emptied(id: u64): Option<u64> -> Option<u64> { c => if c == Some(id) then None else c }

  lemma EmptiedIsRemoved(g: GridView, cells: seq<Option<u64>>, id: u64)
    requires g.Sized() && id in g.placements
    requires Rewritten(g, cells, g.placements[id], 0, g.placements[id].Extent().height, Emptied(id))
    ensures g.Removed(id, GridView(g.columns, g.rows, cells, g.placements - {id}))
  {
    var after := GridView(g.columns, g.rows, cells, g.placements - {id});
    forall x, y | g.Inside(x, y)
      ensures after.CellAt(x, y) ==
                if g.placements[id].Holds(x, y) && g.CellAt(x, y) == Some(id) then None else g.CellAt(x, y)
    {
      assert after.CellAt(x, y) == GridView(g.columns, g.rows, cells, map[]).CellAt(x, y);
    }
  }

  class InventoryGrid {
    const columns: u8
    const rows: u8
    const cells: array<Option<u64>>
    var placements: map<u64, Placement>

    ghost function View(): GridView
      reads this, cells
    {
      GridView(columns, rows, cells[..], placements)
    }

    ghost predicate Valid()
      reads this, cells
    {
      View().Agrees()
    }

    constructor (columns: u8, rows: u8)
      ensures Valid() && fresh(cells) && View().placements == map[] && this.columns == columns && this.rows == rows
    {
      this.columns, this.rows := columns, rows;
      assert 0 <= columns * rows;
      cells := new Option<u64>[columns * rows](i => None);
      placements := map[];
      new;
      EmptyGridAgrees(View());
    }

    function IndexOf(x: u8, y: u8): Option<int> {
      if x >= columns || y >= rows then None else Some(y * columns + x)
    }

    /** The error distinguishes a rectangle that leaves the grid from one that is occupied. */
    method CanPlaceAt(origin: Slot, dimensions: Dimensions, rotation: Rotation, ignored: Option<u64>)
      returns (r: Result<(), PlacementError>)
      requires View().Sized()
      ensures r.Ok? <==> View().Placeable(Placement(origin, rotation, dimensions), ignored)
      ensures r == Err(OutOfBounds) ==> !View().Fits(Placement(origin, rotation, dimensions))
      ensures r == Err(Collision) ==> exists x, y :: Placement(origin, rotation, dimensions).Holds(x, y)
                                       && View().Inside(x, y) && !View().FreeFor(x, y, ignored)
    {
      ghost var p := Placement(origin, rotation, dimensions);
      var extent := dimensions.Oriented(rotation);
      if Min(origin.x + extent.width, 255) > columns || Min(origin.y + extent.height, 255) > rows {
        return Err(OutOfBounds);
      }
      var dy := 0;
      while dy < extent.height
        invariant 0 <= dy <= extent.height
        invariant forall x, y :: Scanned(p, 0, dy, x, y) ==> View().Inside(x, y) && View().FreeFor(x, y, ignored)
      {
        var dx := 0;
        while dx < extent.width
          invariant 0 <= dx <= extent.width
          invariant forall x, y :: Scanned(p, dx, dy, x, y) ==> View().Inside(x, y) && View().FreeFor(x, y, ignored)
        {
          assert p.Holds(origin.x + dx, origin.y + dy);
          InsideBefore(p, dx, dy, ignored);
          var cellX: u8, cellY: u8 := origin.x + dx, origin.y + dy;
          var index := IndexOf(cellX, cellY);
          if index.None? {
            return Err(OutOfBounds);
          }
          AtInside(columns, cellX, cellY, rows);
          var occupant := cells[index.value];
          assert occupant == View().CellAt(cellX, cellY);
          if occupant.Some? && (ignored.None? || occupant != ignored) {
            return Err(Collision);
          }
          dx := dx + 1;
        }
        dy := dy + 1;
      }
      r := Ok(());
    }

    /** The cells scanned so far were inside, so the next sum does not exceed 255. */
    lemma InsideBefore(p: Placement, dx: nat, dy: nat, ignored: Option<u64>)
      requires View().Sized() && dx < p.Extent().width && dy < p.Extent().height
      requires forall x, y :: Scanned(p, dx, dy, x, y) ==> View().Inside(x, y) && View().FreeFor(x, y, ignored)
      ensures p.origin.x + dx <= 255 && p.origin.y + dy <= 255
    {
      if dx > 0 {
        assert Scanned(p, dx, dy, p.origin.x + dx - 1, p.origin.y + dy);
      }
      if dy > 0 {
        assert Scanned(p, dx, dy, p.origin.x, p.origin.y + dy - 1);
      }
    }

    /** Rewrites every cell of a rectangle that lies in the grid. */
    method FillRectangle(p: Placement, id: u64)
      requires View().Sized() && View().Clear(p, None)
      modifies cells
      ensures Rewritten(old(View()), cells[..], p, 0, p.Extent().height, c => Some(id))
    {
      ghost var before := View();
      ghost var f: Option<u64> -> Option<u64> := c => Some(id);
      var dy := 0;
      while dy < p.Extent().height
        invariant 0 <= dy <= p.Extent().height
        invariant Rewritten(before, cells[..], p, 0, dy, f)
      {
        var dx := 0;
        while dx < p.Extent().width
          invariant 0 <= dx <= p.Extent().width
          invariant Rewritten(before, cells[..], p, dx, dy, f)
        {
          assert p.Holds(p.origin.x + dx, p.origin.y + dy);
          var index := IndexOf(p.origin.x + dx, p.origin.y + dy);
          RewriteOne(before, cells[..], p, dx, dy, f);
          cells[index.value] := Some(id);
          dx := dx + 1;
        }
        dy := dy + 1;
      }
    }

    /** Places an item whose rectangle is free; a refused item changes nothing. */
    method PlaceItem(id: u64, origin: Slot, dimensions: Dimensions, rotation: Rotation)
      returns (r: Result<(), PlacementError>)
      requires Valid()
      modifies this, cells
      ensures View().Sized()
      ensures r.Ok? <==> old(View()).Placeable(Placement(origin, rotation, dimensions), None)
      ensures r.Ok? ==> old(View()).Placed(id, Placement(origin, rotation, dimensions), View())
      ensures r.Err? ==> View() == old(View())
      ensures id !in old(placements) ==> Valid()
    {
      ghost var before := View();
      ghost var p := Placement(origin, rotation, dimensions);
      r := CanPlaceAt(origin, dimensions, rotation, None);
      if r.Ok? {
        FillRectangle(Placement(origin, rotation, dimensions), id);
        placements := placements[id := Placement(origin, rotation, dimensions)];
        FilledIsPlaced(before, cells[..], id, p);
        if id !in before.placements {
          before.PlacingKeepsAgreement(id, p, View());
        }
      }
    }

    method EmptyRectangle(p: Placement, id: u64)
      requires View().Sized() && (View().Fits(p) || p.IsEmpty())
      modifies cells
      ensures Rewritten(old(View()), cells[..], p, 0, p.Extent().height, Emptied(id))
    {
      ghost var before := View();
      var dy := 0;
      while dy < p.Extent().height
        invariant 0 <= dy <= p.Extent().height
        invariant Rewritten(before, cells[..], p, 0, dy, Emptied(id))
      {
        var dx := 0;
        while dx < p.Extent().width
          invariant 0 <= dx <= p.Extent().width
          invariant Rewritten(before, cells[..], p, dx, dy, Emptied(id))
        {
          var index := IndexOf(p.origin.x + dx, p.origin.y + dy);
          RewriteOne(before, cells[..], p, dx, dy, Emptied(id));
          if cells[index.value] == Some(id) {
            cells[index.value] := None;
          }
          dx := dx + 1;
        }
        dy := dy + 1;
      }
    }

    /** Takes an item out and frees its cells. */
    method RemoveItem(id: u64) returns (removed: bool)
      requires Valid()
      modifies this, cells
      ensures Valid()
      ensures removed <==> id in old(placements)
      ensures removed ==> old(View()).Removed(id, View())
      ensures !removed ==> View() == old(View())
    {
      if id !in placements {
        return false;
      }
      ghost var before := View();
      var placement := placements[id];
      placements := placements - {id};
      EmptyRectangle(placement, id);
      EmptiedIsRemoved(before, cells[..], id);
      before.RemovingKeepsAgreement(id, View());
      removed := true;
    }

    /** Atomic: once the check passes, taking the item out and placing it again succeeds. */
    method RotateOrMove(id: u64, newOrigin: Slot, newRotation: Rotation) returns (r: Result<(), PlacementError>)
      requires Valid()
      modifies this, cells
      ensures Valid()
      ensures r.Ok? <==> id in old(placements)
                         && old(View()).Placeable(
                              Placement(newOrigin, newRotation, old(placements)[id].dimensions), Some(id))
      ensures r.Ok? ==> old(View()).Moved(id, Placement(newOrigin, newRotation, old(placements)[id].dimensions), View())
      ensures r.Err? ==> View() == old(View())
    {
      if id !in placements {
        return Err(OutOfBounds);
      }
      ghost var before := View();
      var dimensions := placements[id].dimensions;
      ghost var p := Placement(newOrigin, newRotation, dimensions);
      var allowed := CanPlaceAt(newOrigin, dimensions, newRotation, Some(id));
      if allowed.Err? {
        return allowed;
      }
      var removed := RemoveItem(id);
      ghost var without := View();
      before.RemovedMakesRoom(id, p, without);
      r := PlaceItem(id, newOrigin, dimensions, newRotation);
      before.RemoveThenPlaceMoves(id, p, without, View());
    }

    method GetItemAt(slot: Slot) returns (id: Option<u64>)
      requires Valid()
      ensures id == if View().Inside(slot.x, slot.y) then View().CellAt(slot.x, slot.y) else None
    {
      var index := IndexOf(slot.x, slot.y);
      if index.None? {
        return None;
      }
      AtInside(columns, slot.x, slot.y, rows);
      id := cells[index.value];
    }
  }
}
