/** Inserting, splitting, sorting, dropping and depositing the items of one container
    (crates/domain/src/containers.rs). */
module ContainerPacking {
  import opened MachineInts
  import opened Containers
  import opened FreeSlots
  import opened SlotSearch

  datatype PackingError =
    | ContainerNotFound | CategoryNotAllowed | BurnsContainer | NotAGrid | NoSpace
    | ItemNotFound | ZeroSplit | SplitTooLarge | SortFailed | SameContainer

  // ----- The ledger of quantities -----

  function Quantity(items: seq<StoredItem>, definition: u32): nat {
    if items == [] then 0
    else Quantity(items[..|items| - 1], definition) + OfDefinition(items[|items| - 1], definition)
  }

  function OfDefinition(item: StoredItem, definition: u32): nat {
    if item.definition == definition then item.quantity else 0
  }

  lemma QuantityAppended(items: seq<StoredItem>, item: StoredItem, definition: u32)
    ensures Quantity(items + [item], definition) == Quantity(items, definition) + OfDefinition(item, definition)
  {
    assert (items + [item])[..|items|] == items;
  }

  lemma {:induction false} QuantityConcatenated(a: seq<StoredItem>, b: seq<StoredItem>, definition: u32)
    ensures Quantity(a + b, definition) == Quantity(a, definition) + Quantity(b, definition)
    decreases |b|
  {
    if b == [] {
      assert a + b == a;
    } else {
      assert (a + b)[..|a + b| - 1] == a + b[..|b| - 1];
      QuantityConcatenated(a, b[..|b| - 1], definition);
    }
  }

  lemma QuantityRemoved(items: seq<StoredItem>, i: nat, definition: u32)
    requires i < |items|
    ensures Quantity(items[..i] + items[i + 1..], definition) + OfDefinition(items[i], definition)
              == Quantity(items, definition)
  {
    QuantityConcatenated(items[..i], items[i + 1..], definition);
    QuantityConcatenated(items[..i] + [items[i]], items[i + 1..], definition);
    QuantityAppended(items[..i], items[i], definition);
    assert items == items[..i] + [items[i]] + items[i + 1..];
  }

  lemma QuantityReplaced(items: seq<StoredItem>, i: nat, item: StoredItem, definition: u32)
    requires i < |items|
    ensures Quantity(items[i := item], definition) + OfDefinition(items[i], definition)
            == Quantity(items, definition) + OfDefinition(item, definition)
  {
    QuantityRemoved(items, i, definition);
    QuantityRemoved(items[i := item], i, definition);
    assert items[i := item][..i] + items[i := item][i + 1..] == items[..i] + items[i + 1..];
  }

  // ----- Packing under changes that keep positions -----

  /** The same rectangles in the same order. */
  predicate SamePlaces(a: seq<StoredItem>, b: seq<StoredItem>) {
    && |a| == |b|
    && forall i :: 0 <= i < |a| ==> b[i].(quantity := a[i].quantity) == a[i]
  }

  lemma SamePlacesPacked(columns: u8, rows: u8, a: seq<StoredItem>, b: seq<StoredItem>)
    requires WellPacked(columns, rows, a) && SamePlaces(a, b)
    ensures WellPacked(columns, rows, b)
  {
    forall i | 0 <= i < |b|
      ensures InBounds(columns, rows, b[i])
    {
      assert InBounds(columns, rows, a[i]);
    }
    forall i, j | 0 <= i < j < |b|
      ensures !Overlaps(b[i], b[j])
    {
      assert !Overlaps(a[i], a[j]);
    }
  }

  lemma RemovedPacked(columns: u8, rows: u8, items: seq<StoredItem>, i: nat)
    requires WellPacked(columns, rows, items) && i < |items|
    ensures WellPacked(columns, rows, items[..i] + items[i + 1..])
  {
    var rest := items[..i] + items[i + 1..];
    forall a, b | 0 <= a < b < |rest|
      ensures !Overlaps(rest[a], rest[b])
    {
      assert !Overlaps(items[if a < i then a else a + 1], items[if b < i then b else b + 1]);
    }
  }

  lemma AppendedPacked(columns: u8, rows: u8, items: seq<StoredItem>, item: StoredItem)
    requires WellPacked(columns, rows, items) && InBounds(columns, rows, item)
    requires forall i :: 0 <= i < |items| ==> !Overlaps(items[i], item)
    ensures WellPacked(columns, rows, items + [item])
  {
  }

  /** Taking an item out and putting it back at the end keeps the grid packed. */
  lemma PutBackPacked(columns: u8, rows: u8, items: seq<StoredItem>, i: nat)
    requires WellPacked(columns, rows, items) && i < |items|
    ensures WellPacked(columns, rows, items[..i] + items[i + 1..] + [items[i]])
  {
    RemovedPacked(columns, rows, items, i);
    var rest := items[..i] + items[i + 1..];
    forall a | 0 <= a < |rest|
      ensures !Overlaps(rest[a], items[i])
    {
      OverlapsSymmetric(rest[a], items[i]);
      if a < i {
        assert !Overlaps(items[a], items[i]);
      } else {
        assert !Overlaps(items[i], items[a + 1]);
      }
    }
    AppendedPacked(columns, rows, rest, items[i]);
  }

  function PlacedAt(item: StoredItem, spot: Spot): StoredItem {
    item.(x := spot.x, y := spot.y, rotated := spot.rotated)
  }

  lemma LegalPlacementPacked(columns: u8, rows: u8, items: seq<StoredItem>, item: StoredItem, spot: Spot)
    requires WellPacked(columns, rows, items) && Legal(columns, rows, items, item.width, item.height, spot)
    ensures WellPacked(columns, rows, items + [PlacedAt(item, spot)])
  {
    var placed := PlacedAt(item, spot);
    forall i | 0 <= i < |items|
      ensures !Overlaps(items[i], placed)
    {
      assert !Overlaps(Candidate(item.width, item.height, spot), items[i]);
    }
    AppendedPacked(columns, rows, items, placed);
  }

  // ----- Merging stacks -----

  /** One stack takes what fits of a quantity of its definition. */
  function Topped(stack: StoredItem, definition: u32, quantity: u32): (r: (StoredItem, u32))
    ensures r.0.quantity + r.1 == stack.quantity + quantity || stack.definition != definition
              || stack.quantity >= stack.maxStack
  {
    if stack.definition == definition && stack.quantity < stack.maxStack then
      var amount := Min(quantity, stack.maxStack - stack.quantity);
      (stack.(quantity := stack.quantity + amount), quantity - amount)
    else (stack, quantity)
  }

  /** Merging a quantity into the stacks of a container, first to last: the stacks, what is left, and
      the stack that took the last of it. */
  function Merged(items: seq<StoredItem>, definition: u32, quantity: u32)
    : (r: (seq<StoredItem>, u32, Option<StoredItem>))
    ensures |r.0| == |items| && r.1 <= quantity && (r.2.Some? ==> r.1 == 0)
  {
    if items == [] then ([], quantity, None)
    else
      var (earlier, left, taker) := Merged(items[..|items| - 1], definition, quantity);
      var last := items[|items| - 1];
      if taker.Some? then (earlier + [last], left, taker)
      else
        var (stack, rest) := Topped(last, definition, left);
        (earlier + [stack], rest,
         if rest == 0 && last.definition == definition && last.quantity < last.maxStack then Some(stack) else None)
  }

  lemma {:induction false} MergedKeepsPlaces(items: seq<StoredItem>, definition: u32, quantity: u32)
    ensures SamePlaces(items, Merged(items, definition, quantity).0)
    ensures forall i :: 0 <= i < |items| && items[i].quantity <= items[i].maxStack ==>
              Merged(items, definition, quantity).0[i].quantity <= items[i].maxStack
  {
    if items != [] {
      MergedKeepsPlaces(items[..|items| - 1], definition, quantity);
    }
  }

  /** What leaves the quantity enters the stacks of its definition, and no other stack changes. */
  lemma {:induction false} MergedBalances(items: seq<StoredItem>, definition: u32, quantity: u32, other: u32)
    ensures var (stacks, left, _) := Merged(items, definition, quantity);
            Quantity(stacks, other) + (if other == definition then left else 0)
            == Quantity(items, other) + (if other == definition then quantity else 0)
  {
    if items != [] {
      var (earlier, left, taker) := Merged(items[..|items| - 1], definition, quantity);
      MergedBalances(items[..|items| - 1], definition, quantity, other);
      QuantityAppended(earlier, Merged(items, definition, quantity).0[|items| - 1], other);
    }
  }

  predicate HasRoom(stack: StoredItem, definition: u32) {
    stack.definition == definition && stack.quantity < stack.maxStack
  }

  lemma MergedNext(items: seq<StoredItem>, i: nat, definition: u32, quantity: u32)
    requires i < |items| && Merged(items[..i], definition, quantity).2.None?
    ensures var (earlier, left, _) := Merged(items[..i], definition, quantity);
            var (stack, rest) := Topped(items[i], definition, left);
            && Merged(items[..i + 1], definition, quantity).0 == earlier + [stack]
            && Merged(items[..i + 1], definition, quantity).1 == rest
            && Merged(items[..i + 1], definition, quantity).2 ==
              if rest == 0 && HasRoom(items[i], definition) then Some(stack) else None
  {
    assert items[..i + 1][..i] == items[..i];
  }

  /** `stacks` is `items` with the first `i` merged. */
  ghost predicate MergedUpTo(items: seq<StoredItem>, i: nat, definition: u32, quantity: u32,
                             stacks: seq<StoredItem>, left: u32, taker: Option<StoredItem>)
    requires i <= |items|
  {
    && stacks == Merged(items[..i], definition, quantity).0 + items[i..]
    && left == Merged(items[..i], definition, quantity).1
    && taker == Merged(items[..i], definition, quantity).2
  }

  lemma MergeStep(items: seq<StoredItem>, i: nat, definition: u32, quantity: u32, stacks: seq<StoredItem>, left: u32)
    requires i < |items| && MergedUpTo(items, i, definition, quantity, stacks, left, None)
    ensures stacks[i] == items[i]
    ensures var (stack, rest) := Topped(items[i], definition, left);
            MergedUpTo(items, i + 1, definition, quantity, stacks[i := stack], rest,
                       if rest == 0 && HasRoom(items[i], definition) then Some(stack) else None)
  {
    MergedNext(items, i, definition, quantity);
    var (stack, rest) := Topped(items[i], definition, left);
    assert stacks[i := stack] == Merged(items[..i], definition, quantity).0 + [stack] + items[i + 1..];
  }

  /** Tops up the stacks in place, until one has taken the rest. */
  method MergeStacks(items: seq<StoredItem>, definition: u32, quantity: u32)
    returns (stacks: seq<StoredItem>, left: u32, taker: Option<StoredItem>)
    ensures stacks == Merged(items, definition, quantity).0
    ensures left == Merged(items, definition, quantity).1
    ensures taker == Merged(items, definition, quantity).2
  {
    stacks, left, taker := items, quantity, None;
    MergeStart(items, definition, quantity);
    for i := 0 to |items|
      invariant |stacks| == |items| && taker == None
      invariant MergedUpTo(items, i, definition, quantity, stacks, left, None)
    {
      MergeStep(items, i, definition, quantity, stacks, left);
      var (stack, rest) := Topped(stacks[i], definition, left);
      var room := HasRoom(stacks[i], definition);
      stacks, left := stacks[i := stack], rest;
      if room && left == 0 {
        taker := Some(stack);
        MergedAfterTaker(items, i + 1, definition, quantity);
        return;
      }
    }
    MergeEnd(items, definition, quantity, stacks, left);
  }

  lemma MergeStart(items: seq<StoredItem>, definition: u32, quantity: u32)
    ensures MergedUpTo(items, 0, definition, quantity, items, quantity, None)
  {
    assert items[..0] == [] && [] + items[0..] == items;
  }

  lemma MergeEnd(items: seq<StoredItem>, definition: u32, quantity: u32, stacks: seq<StoredItem>, left: u32)
    requires MergedUpTo(items, |items|, definition, quantity, stacks, left, None)
    ensures stacks == Merged(items, definition, quantity).0
    ensures left == Merged(items, definition, quantity).1 && Merged(items, definition, quantity).2 == None
  {
    assert items[..|items|] == items && items[|items|..] == [];
  }

  /** Once a stack has taken the rest, the stacks after it are left alone. */
  lemma {:induction false} MergedAfterTaker(items: seq<StoredItem>, i: nat, definition: u32, quantity: u32)
    requires i <= |items| && Merged(items[..i], definition, quantity).2.Some?
    ensures var (stacks, left, taker) := Merged(items[..i], definition, quantity);
            Merged(items, definition, quantity) == (stacks + items[i..], left, taker)
    decreases |items| - i
  {
    if i == |items| {
      assert items[..i] == items;
      assert Merged(items, definition, quantity).0 + items[i..] == Merged(items, definition, quantity).0;
    } else {
      assert items[..i + 1][..i] == items[..i];
      var (stacks, left, taker) := Merged(items[..i], definition, quantity);
      assert Merged(items[..i + 1], definition, quantity) == (stacks + [items[i]], left, taker);
      MergedAfterTaker(items, i + 1, definition, quantity);
      assert stacks + [items[i]] + items[i + 1..] == stacks + items[i..];
    }
  }

  // ----- Quick insert -----

  function Admits(c: Container, item: StoredItem): Option<PackingError> {
    if item.category !in c.allowed then Some(CategoryNotAllowed)
    else if item.category == Hazardous && Fireproof !in c.affixes then Some(BurnsContainer)
    else None
  }

  /** The stacks after merging, what is left of the item, and the stack that took the last of it. */
  function MergedInto(c: Container, item: StoredItem): (r: (seq<StoredItem>, u32, Option<StoredItem>))
    ensures r.1 <= item.quantity
  {
    if item.maxStack > 1 then Merged(c.items, item.definition, item.quantity) else (c.items, item.quantity, None)
  }

  /** Merges into stacks, then places what is left.  What was merged stays merged even when there is
      then no place for the rest. */
  function QuickInserted(c: Container, item: StoredItem, allowRotation: bool)
    : (Result<StoredItem, PackingError>, Container)
  {
    if Admits(c, item).Some? then (Err(Admits(c, item).value), c)
    else
      var (stacks, left, taker) := MergedInto(c, item);
      var merged := c.(items := stacks);
      if taker.Some? then (Ok(taker.value), merged)
      else if !c.content.Grid? then (Err(NotAGrid), merged)
      else
        match FreeSlot(c.content.columns, c.content.rows, stacks, item.width, item.height, allowRotation)
        case None => (Err(NoSpace), merged)
        case Some(spot) =>
          var placed := PlacedAt(item.(quantity := left), spot);
          (Ok(placed), c.(items := stacks + [placed]))
  }

  method InsertInto(c: Container, item: StoredItem, allowRotation: bool)
    returns (r: Result<StoredItem, PackingError>, after: Container)
    ensures r == QuickInserted(c, item, allowRotation).0 && after == QuickInserted(c, item, allowRotation).1
  {
    after := c;
    if item.category !in c.allowed {
      return Err(CategoryNotAllowed), c;
    }
    if item.category == Hazardous && Fireproof !in c.affixes {
      return Err(BurnsContainer), c;
    }
    var left, taker := item.quantity, None;
    if item.maxStack > 1 {
      var stacks;
      stacks, left, taker := MergeStacks(c.items, item.definition, item.quantity);
      after := c.(items := stacks);
    }
    if taker.Some? {
      return Ok(taker.value), after;
    }
    if !c.content.Grid? {
      return Err(NotAGrid), after;
    }
    var spot := FindFreeSlot(c.content.columns, c.content.rows, after.items, item.width, item.height, allowRotation);
    if spot.None? {
      return Err(NoSpace), after;
    }
    var placed := PlacedAt(item.(quantity := left), spot.value);
    r, after := Ok(placed), c.(items := after.items + [placed]);
  }

  /** The part of an item that a quick insert merges into stacks. */
  function MergedPart(c: Container, item: StoredItem): nat {
    if Admits(c, item).Some? then 0 else item.quantity - MergedInto(c, item).1
  }

  /** A quick insert adds exactly the item's quantity when it succeeds, and exactly the merged part
      when it fails; no other definition is touched. */
  lemma InsertBalances(c: Container, item: StoredItem, allowRotation: bool, definition: u32)
    ensures var (r, after) := QuickInserted(c, item, allowRotation);
            Quantity(after.items, definition) == Quantity(c.items, definition)
              + (if definition != item.definition then 0 else if r.Ok? then item.quantity else MergedPart(c, item))
  {
    if Admits(c, item).None? {
      var (stacks, left, taker) := MergedInto(c, item);
      if item.maxStack > 1 {
        MergedBalances(c.items, item.definition, item.quantity, definition);
      }
      if taker.None? && QuickInserted(c, item, allowRotation).0.Ok? {
        QuantityAppended(stacks, QuickInserted(c, item, allowRotation).0.value, definition);
      }
    }
  }

  /** A quick insert changes nothing of a container but its items. */
  lemma InsertFrame(c: Container, item: StoredItem, allowRotation: bool)
    ensures QuickInserted(c, item, allowRotation).1 == c.(items := QuickInserted(c, item, allowRotation).1.items)
  {
  }

  /** A container's grid is packed. */
  predicate Packed(c: Container) {
    c.content.Grid? ==> WellPacked(c.content.columns, c.content.rows, c.items)
  }

  predicate SafeFor(c: Container, item: StoredItem, allowRotation: bool) {
    c.content.Grid? ==> SearchSafe(c.content.columns, c.content.rows, item.width, item.height, allowRotation)
  }

  lemma InsertKeepsPacked(c: Container, item: StoredItem, allowRotation: bool)
    requires Packed(c) && SafeFor(c, item, allowRotation)
    ensures Packed(QuickInserted(c, item, allowRotation).1)
  {
    if c.content.Grid? {
      var columns, rows := c.content.columns, c.content.rows;
      var stacks := MergedInto(c, item).0;
      MergedKeepsPlaces(c.items, item.definition, item.quantity);
      SamePlacesPacked(columns, rows, c.items, stacks);
      SearchExact(columns, rows, stacks, item.width, item.height, allowRotation);
      var spot := FreeSlot(columns, rows, stacks, item.width, item.height, allowRotation);
      if spot.Some? {
        LegalPlacementPacked(columns, rows, stacks, item.(quantity := MergedInto(c, item).1), spot.value);
      }
    }
  }

  /** A quick insert of something left over finds a place exactly when there is a legal one. */
  lemma InsertFindsSpaceIff(c: Container, item: StoredItem, allowRotation: bool)
    requires Packed(c) && SafeFor(c, item, allowRotation) && c.content.Grid?
    requires Admits(c, item).None? && MergedInto(c, item).2.None?
    ensures QuickInserted(c, item, allowRotation).0.Ok? <==>
              exists spot :: Scans(c.content.columns, c.content.rows, item.width, item.height, allowRotation, spot)
                && Legal(c.content.columns, c.content.rows, MergedInto(c, item).0, item.width, item.height, spot)
  {
    MergedKeepsPlaces(c.items, item.definition, item.quantity);
    SamePlacesPacked(c.content.columns, c.content.rows, c.items, MergedInto(c, item).0);
    SearchExact(c.content.columns, c.content.rows, MergedInto(c, item).0, item.width, item.height, allowRotation);
  }

  // ----- Split -----

  function IndexOf(items: seq<StoredItem>, id: u64): (r: Option<nat>)
    ensures r.Some? ==> r.value < |items| && items[r.value].id == id
    ensures r.Some? ==> forall i :: 0 <= i < r.value ==> items[i].id != id
    ensures r.None? ==> forall i :: 0 <= i < |items| ==> items[i].id != id
  {
    IndexFrom(items, id, 0)
  }

  function IndexFrom(items: seq<StoredItem>, id: u64, from: nat): (r: Option<nat>)
    requires from <= |items| && forall i :: 0 <= i < from ==> items[i].id != id
    ensures r.Some? ==> r.value < |items| && items[r.value].id == id
    ensures r.Some? ==> forall i :: 0 <= i < r.value ==> items[i].id != id
    ensures r.None? ==> forall i :: 0 <= i < |items| ==> items[i].id != id
    decreases |items| - from
  {
    if from == |items| then None
    else if items[from].id == id then Some(from)
    else IndexFrom(items, id, from + 1)
  }

  /** Takes a share of a stack into a new one, and gives it back when there is no place. */
  function SplitOff(c: Container, source: u64, amount: u32, newId: u64): (Result<StoredItem, PackingError>, Container) {
    if !c.content.Grid? then (Err(NotAGrid), c)
    else
      match IndexOf(c.items, source)
      case None => (Err(ItemNotFound), c)
      case Some(i) =>
        var original := c.items[i];
        if amount == 0 then (Err(ZeroSplit), c)
        else if amount >= original.quantity then (Err(SplitTooLarge), c)
        else
          var reduced := c.items[i := original.(quantity := original.quantity - amount)];
          var share := original.(id := newId, quantity := amount, x := 0, y := 0, rotated := false);
          match FreeSlot(c.content.columns, c.content.rows, reduced, share.width, share.height, true)
          case None => (Err(NoSpace), c.(items := reduced[i := reduced[i].(quantity := reduced[i].quantity + amount)]))
          case Some(spot) => (Ok(PlacedAt(share, spot)), c.(items := reduced + [PlacedAt(share, spot)]))
  }

  /** A split conserves every quantity, and a failed split changes nothing at all. */
  lemma SplitBalances(c: Container, source: u64, amount: u32, newId: u64, definition: u32)
    ensures var (r, after) := SplitOff(c, source, amount, newId);
            && Quantity(after.items, definition) == Quantity(c.items, definition)
            && (r.Err? ==> after == c)
            && (r.Ok? ==> r.value.id == newId && r.value.quantity == amount)
  {
    if SplitOff(c, source, amount, newId).0.Ok? {
      SplitShares(c, source, amount, newId, definition);
    } else {
      SplitRollsBack(c, source, amount, newId);
    }
  }

  lemma SplitRollsBack(c: Container, source: u64, amount: u32, newId: u64)
    requires SplitOff(c, source, amount, newId).0.Err?
    ensures SplitOff(c, source, amount, newId).1 == c
  {
    var i := IndexOf(c.items, source);
    if c.content.Grid? && i.Some? && 0 < amount < c.items[i.value].quantity {
      var original := c.items[i.value];
      assert c.items[i.value := original.(quantity := original.quantity - amount)][i.value := original] == c.items;
    }
  }

  lemma SplitShares(c: Container, source: u64, amount: u32, newId: u64, definition: u32)
    requires SplitOff(c, source, amount, newId).0.Ok?
    ensures Quantity(SplitOff(c, source, amount, newId).1.items, definition) == Quantity(c.items, definition)
  {
    var i := IndexOf(c.items, source).value;
    var original := c.items[i];
    var reduced := original.(quantity := original.quantity - amount);
    QuantityReplaced(c.items, i, reduced, definition);
    QuantityAppended(c.items[i := reduced], SplitOff(c, source, amount, newId).0.value, definition);
  }

  lemma SplitKeepsPacked(c: Container, source: u64, amount: u32, newId: u64)
    requires Packed(c)
    requires forall i :: 0 <= i < |c.items| ==> SafeFor(c, c.items[i], true)
    ensures Packed(SplitOff(c, source, amount, newId).1)
  {
    var (r, after) := SplitOff(c, source, amount, newId);
    if r.Ok? {
      var i := IndexOf(c.items, source).value;
      var original := c.items[i];
      var reduced := c.items[i := original.(quantity := original.quantity - amount)];
      SamePlacesPacked(c.content.columns, c.content.rows, c.items, reduced);
      SearchExact(c.content.columns, c.content.rows, reduced, original.width, original.height, true);
      var spot := FreeSlot(c.content.columns, c.content.rows, reduced, original.width, original.height, true).value;
      LegalPlacementPacked(c.content.columns, c.content.rows, reduced,
        original.(id := newId, quantity := amount, x := 0, y := 0, rotated := false), spot);
    } else {
      SplitBalances(c, source, amount, newId, 0);
    }
  }
}
