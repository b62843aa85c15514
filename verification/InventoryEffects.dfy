/** What each inventory intent asks, and what it then does to the zone and what it leaves alone
    (crates/simulation/src/loot.rs, crates/domain/src/items.rs). */
module InventoryEffects {
  import opened MachineInts
  import opened InventoryGrids
  import opened InventoryLedger

  /** A revision or a counter after one more change: it does not pass its largest value. */
  predicate RaisedTo(before: int, after: int, largest: int) {
    (before < largest && after == before + 1) || (before == largest && after == largest)
  }

  /** The same item with its revision raised. */
  predicate Touched(before: Item, after: Item) {
    after == before.(revision := after.revision) && RaisedTo(before.revision, after.revision, U64_MAX)
  }

  /** The same item with its revision raised and another quantity. */
  predicate Requantified(before: Item, after: Item, quantity: int) {
    && after == before.(revision := after.revision, quantity := after.quantity)
    && after.quantity == quantity && RaisedTo(before.revision, after.revision, U64_MAX)
  }

  /** A change of owner raises the revision and counts the owner; staying with one changes nothing. */
  predicate HandedTo(before: Item, after: Item, owner: Ownership) {
    if before.owner == owner then after == before
    else
      && after == before.(owner := owner, revision := after.revision, ownerCount := after.ownerCount)
      && RaisedTo(before.revision, after.revision, U64_MAX) && RaisedTo(before.ownerCount, after.ownerCount, U32_MAX)
  }

  /** The grid has lost an item's rectangle, whose cells are free, and nothing else. */
  ghost predicate Freed(g: GridView, id: u64, after: GridView)
    requires g.Sized()
  {
    && after.columns == g.columns && after.rows == g.rows && after.Sized()
    && (forall k :: k in after.placements <==> k in g.placements && k != id)
    && (forall k :: k in after.placements ==> after.placements[k] == g.placements[k])
    && (forall x, y :: g.Inside(x, y) ==>
          after.CellAt(x, y) == if g.CellAt(x, y) == Some(id) then None else g.CellAt(x, y))
  }

  /** The items other than these two are as before. */
  ghost predicate OthersKept(inv: Inventory, after: Inventory, a: u64, b: u64) {
    forall k :: k != a && k != b ==>
      && (k in after.items <==> k in inv.items)
      && (k in inv.items ==> after.items[k] == inv.items[k])
  }

  /** Only this player's inventory changes. */
  ghost predicate OnlyInventory(z: Zone, after: Zone, player: u64) {
    && after.bags == z.bags && after.nextBagId == z.nextBagId && after.tick == z.tick
    && OtherInventories(z, after, player)
  }

  ghost predicate OtherInventories(z: Zone, after: Zone, player: u64) {
    forall p :: && (p in after.inventories <==> p in z.inventories)
                && (p in z.inventories && p != player ==> after.inventories[p] == z.inventories[p])
  }

  lemma WithInventoryOnly(z: Zone, player: u64, inv: Inventory)
    requires player in z.inventories
    ensures OnlyInventory(z, WithInventory(z, player, inv), player)
  {
  }

  lemma WithoutFrees(g: GridView, id: u64)
    requires g.Agrees()
    ensures Freed(g, id, Without(g, id))
  {
    if id in g.placements {
      WithoutIsRemoved(g, id);
    }
    forall x, y | g.Inside(x, y)
      ensures g.CellAt(x, y) == Some(id) <==> id in g.placements && g.placements[id].Holds(x, y)
    {
    }
  }

  // ----- Merge -----

  predicate BothHeld(inv: Inventory, m: Intent)
    requires m.Merge?
  {
    m.source in inv.items && m.target in inv.items && m.source != m.target
  }

  predicate RevisionsExpected(inv: Inventory, m: Intent)
    requires m.Merge? && BothHeld(inv, m)
  {
    inv.items[m.source].revision == m.sourceRevision && inv.items[m.target].revision == m.targetRevision
  }

  /** The target takes what it can: it is full, or the source is gone from the items and the grid. */
  ghost predicate MergeDone(inv: Inventory, after: Inventory, m: Intent)
    requires m.Merge? && BothHeld(inv, m) && inv.grid.Sized()
  {
    var source, target := inv.items[m.source], inv.items[m.target];
    var total := source.quantity + target.quantity;
    && m.target in after.items && after.equipment == inv.equipment && OthersKept(inv, after, m.source, m.target)
    && if total <= 100 then
         && Requantified(target, after.items[m.target], total)
         && m.source !in after.items && Freed(inv.grid, m.source, after.grid)
       else
         && Requantified(target, after.items[m.target], 100)
         && m.source in after.items && Requantified(source, after.items[m.source], total - 100)
         && after.grid == inv.grid
  }

  /** What the player is told. */
  ghost function MergeAnswer(inv: Inventory, m: Intent): Outcome
    requires m.Merge?
  {
    if !BothHeld(inv, m) then ItemNotFound
    else if !RevisionsExpected(inv, m) then ConcurrencyConflict
    else if inv.items[m.source].definition != inv.items[m.target].definition then IncompatibleItems
    else if inv.items[m.target].quantity >= 100 then StackLimitExceeded
    else Success
  }

  lemma MergeOutcome(inv: Inventory, m: Intent)
    requires m.Merge? && Sound(inv)
    ensures MergedItems(inv, m).0 == MergeAnswer(inv, m)
    ensures MergedItems(inv, m).0 == Success ==> MergeDone(inv, MergedItems(inv, m).1, m)
  {
    WithoutFrees(inv.grid, m.source);
  }

  /** A merge succeeds exactly when both items are held, distinct, of one definition and at the expected
      revisions, and the target has room. */
  lemma MergeEffect(rules: Rules, z: Zone, player: u64, m: Intent)
    requires AllSound(z) && player in z.inventories && m.Merge?
    ensures var inv, (outcome, after) := z.inventories[player], Handled(rules, z, player, m);
            && outcome == Some(MergeAnswer(inv, m))
            && (outcome == Some(Success) <==>
                  && BothHeld(inv, m) && RevisionsExpected(inv, m)
                  && inv.items[m.source].definition == inv.items[m.target].definition
                  && inv.items[m.target].quantity < 100)
            && (outcome == Some(Success) ==>
                  OnlyInventory(z, after, player) && MergeDone(inv, after.inventories[player], m))
  {
    MergeOutcome(z.inventories[player], m);
    WithInventoryOnly(z, player, MergedItems(z.inventories[player], m).1);
  }

  // ----- Move or rotate -----

  /** The item's rectangle at the asked place. */
  function Target(inv: Inventory, m: Intent): Placement
    requires m.MoveOrRotate? && m.item in inv.grid.placements
  {
    Placement(m.slot, m.rotation, inv.grid.placements[m.item].dimensions)
  }

  ghost predicate MoveDone(inv: Inventory, after: Inventory, m: Intent)
    requires m.MoveOrRotate? && m.item in inv.items && m.item in inv.grid.placements && inv.grid.Sized()
  {
    && m.item in after.items && Touched(inv.items[m.item], after.items[m.item])
    && after.equipment == inv.equipment && OthersKept(inv, after, m.item, m.item)
    && after.grid.Sized() && inv.grid.Moved(m.item, Target(inv, m), after.grid)
  }

  /** What the player is told. */
  ghost function MoveAnswer(inv: Inventory, m: Intent): Outcome
    requires m.MoveOrRotate? && inv.grid.Sized()
  {
    if m.item !in inv.items then ItemNotFound
    else if inv.items[m.item].revision != m.revision then ConcurrencyConflict
    else if m.item in inv.grid.placements && inv.grid.Placeable(Target(inv, m), Some(m.item)) then Success
    else InvalidPlacement
  }

  lemma MoveOutcome(inv: Inventory, m: Intent)
    requires m.MoveOrRotate? && Sound(inv)
    ensures MovedItem(inv, m).0 == MoveAnswer(inv, m)
    ensures MovedItem(inv, m).0 == Success ==> MoveDone(inv, MovedItem(inv, m).1, m)
  {
    if m.item in inv.items && m.item in inv.grid.placements {
      CanPlaceIsPlaceable(inv.grid, Target(inv, m), Some(m.item));
      if MovedItem(inv, m).0 == Success {
        MovesInGrid(inv.grid, m.item, Target(inv, m));
      }
    }
  }

  lemma MovesInGrid(g: GridView, id: u64, p: Placement)
    requires g.Agrees() && id in g.placements && CanPlace(g, p, Some(id))
    ensures Without(g, id).Sized()
    ensures WithPlaced(Without(g, id), id, p).Sized() && g.Moved(id, p, WithPlaced(Without(g, id), id, p))
  {
    WithoutIsRemoved(g, id);
    WithPlacedIsPlaced(Without(g, id), id, p);
    g.RemoveThenPlaceMoves(id, p, Without(g, id), WithPlaced(Without(g, id), id, p));
  }

  lemma MoveEffect(rules: Rules, z: Zone, player: u64, m: Intent)
    requires AllSound(z) && player in z.inventories && m.MoveOrRotate?
    ensures var inv, (outcome, after) := z.inventories[player], Handled(rules, z, player, m);
            && outcome == Some(MoveAnswer(inv, m))
            && (outcome == Some(Success) <==>
                  && m.item in inv.items && inv.items[m.item].revision == m.revision
                  && m.item in inv.grid.placements && inv.grid.Placeable(Target(inv, m), Some(m.item)))
            && (outcome == Some(Success) ==>
                  OnlyInventory(z, after, player) && MoveDone(inv, after.inventories[player], m))
  {
    MoveOutcome(z.inventories[player], m);
    WithInventoryOnly(z, player, MovedItem(z.inventories[player], m).1);
  }

  // ----- Split -----

  predicate SplitAsked(inv: Inventory, s: Intent)
    requires s.Split?
  {
    s.source in inv.items && inv.items[s.source].revision == s.revision && 0 < s.quantity < inv.items[s.source].quantity
  }

  /** The part leaves the source and is placed as a new item, whose id is the one asked for. */
  ghost predicate SplitDone(rules: Rules, inv: Inventory, after: Inventory, s: Intent)
    requires s.Split? && SplitAsked(inv, s) && rules.dimensions(inv.items[s.source].definition).Some?
               && inv.grid.Sized()
  {
    var source := inv.items[s.source];
    var p := Placement(s.slot, s.rotation, rules.dimensions(source.definition).value);
    && s.newId in after.items && s.source in after.items
    && after.items[s.newId] == Item(s.newId, source.definition, source.owner, 1, s.quantity, 0)
    && (s.newId != s.source ==> Requantified(source, after.items[s.source], source.quantity - s.quantity))
    && after.equipment == inv.equipment && OthersKept(inv, after, s.source, s.newId)
    && after.grid.Sized() && inv.grid.Placed(s.newId, p, after.grid)
  }

  /** What the player is told. */
  ghost function SplitAnswer(rules: Rules, inv: Inventory, s: Intent): Outcome
    requires s.Split? && inv.grid.Sized()
  {
    if s.source !in inv.items then ItemNotFound
    else if inv.items[s.source].revision != s.revision then ConcurrencyConflict
    else if !SplitAsked(inv, s) then InvalidSplitQuantity
    else
      match rules.dimensions(inv.items[s.source].definition)
      case None => ItemNotFound
      case Some(d) =>
        if inv.grid.Placeable(Placement(s.slot, s.rotation, d), None) then Success else InvalidPlacement
  }

  lemma SplitOutcome(rules: Rules, inv: Inventory, s: Intent)
    requires s.Split? && Sound(inv)
    ensures SplitItem(rules, inv, s).0 == SplitAnswer(rules, inv, s)
    ensures SplitItem(rules, inv, s).0 == Success ==> SplitDone(rules, inv, SplitItem(rules, inv, s).1, s)
  {
    if SplitAsked(inv, s) && rules.dimensions(inv.items[s.source].definition).Some? {
      var p := Placement(s.slot, s.rotation, rules.dimensions(inv.items[s.source].definition).value);
      CanPlaceIsPlaceable(inv.grid, p, None);
      WithPlacedIsPlaced(inv.grid, s.newId, p);
    }
  }

  lemma SplitEffect(rules: Rules, z: Zone, player: u64, s: Intent)
    requires AllSound(z) && player in z.inventories && s.Split?
    ensures var inv, (outcome, after) := z.inventories[player], Handled(rules, z, player, s);
            && outcome == Some(SplitAnswer(rules, inv, s))
            && (outcome == Some(Success) <==>
                  && SplitAsked(inv, s)
                  && var d := rules.dimensions(inv.items[s.source].definition);
                     d.Some? && inv.grid.Placeable(Placement(s.slot, s.rotation, d.value), None))
            && (outcome == Some(Success) ==>
                  OnlyInventory(z, after, player) && SplitDone(rules, inv, after.inventories[player], s))
  {
    SplitOutcome(rules, z.inventories[player], s);
    WithInventoryOnly(z, player, SplitItem(rules, z.inventories[player], s).1);
  }

  // ----- Equip -----

  predicate EquipAllowed(rules: Rules, inv: Inventory, e: Intent)
    requires e.Equip?
  {
    && e.item in inv.items && inv.items[e.item].revision == e.revision
    && rules.slotFor(inv.items[e.item].definition) == Some(e.slotKind) && e.slotKind !in inv.equipment
  }

  /** The slot receives the item, which leaves the grid but stays among the items. */
  ghost predicate EquipDone(inv: Inventory, after: Inventory, e: Intent)
    requires e.Equip? && e.item in inv.items && inv.grid.Sized()
  {
    && e.item in after.items && Touched(inv.items[e.item], after.items[e.item])
    && e.slotKind in after.equipment && after.equipment[e.slotKind] == after.items[e.item]
    && (forall k :: k != e.slotKind ==>
          && (k in after.equipment <==> k in inv.equipment)
          && (k in inv.equipment ==> after.equipment[k] == inv.equipment[k]))
    && OthersKept(inv, after, e.item, e.item) && Freed(inv.grid, e.item, after.grid)
  }

  /** What the player is told. */
  ghost function EquipAnswer(rules: Rules, inv: Inventory, e: Intent): Outcome
    requires e.Equip?
  {
    if e.item !in inv.items then ItemNotFound
    else if inv.items[e.item].revision != e.revision then ConcurrencyConflict
    else if rules.slotFor(inv.items[e.item].definition) != Some(e.slotKind) then IncompatibleSlot
    else if !EquipAllowed(rules, inv, e) then SlotAlreadyOccupied
    else Success
  }

  lemma EquipOutcome(rules: Rules, inv: Inventory, e: Intent)
    requires e.Equip? && Sound(inv)
    ensures EquippedItem(rules, inv, e).0 == EquipAnswer(rules, inv, e)
    ensures EquippedItem(rules, inv, e).0 == Success ==> EquipDone(inv, EquippedItem(rules, inv, e).1, e)
  {
    WithoutFrees(inv.grid, e.item);
  }

  lemma EquipEffect(rules: Rules, z: Zone, player: u64, e: Intent)
    requires AllSound(z) && player in z.inventories && e.Equip?
    ensures var inv, (outcome, after) := z.inventories[player], Handled(rules, z, player, e);
            && outcome == Some(EquipAnswer(rules, inv, e))
            && (outcome == Some(Success) <==> EquipAllowed(rules, inv, e))
            && (outcome == Some(Success) ==>
                  OnlyInventory(z, after, player) && EquipDone(inv, after.inventories[player], e))
  {
    EquipOutcome(rules, z.inventories[player], e);
    WithInventoryOnly(z, player, EquippedItem(rules, z.inventories[player], e).1);
  }

  // ----- Drop -----

  /** A bag that holds one item, owned by the world, from now on for 600 ticks. */
  predicate NewBag(bag: Bag, z: Zone, player: u64, item: Item) {
    && bag.owner == player && bag.spawnedAt == z.tick && bag.decayAfter == 600
    && |bag.items| == 1 && HandedTo(item, bag.items[0], OfWorld)
  }

  /** The item leaves the inventory for a new bag of the next number. */
  ghost predicate DropDone(z: Zone, after: Zone, player: u64, d: Intent)
    requires d.Drop? && player in z.inventories && d.item in z.inventories[player].items
    requires z.inventories[player].grid.Sized()
  {
    var inv := z.inventories[player];
    && OtherInventories(z, after, player) && after.tick == z.tick && RaisedTo(z.nextBagId, after.nextBagId, U64_MAX)
    && (var left := after.inventories[player];
        && d.item !in left.items && left.equipment == inv.equipment && OthersKept(inv, left, d.item, d.item)
        && Freed(inv.grid, d.item, left.grid))
    && after.nextBagId in after.bags
    && NewBag(after.bags[after.nextBagId], z, player, inv.items[d.item])
    && (forall b :: b != after.nextBagId ==>
          && (b in after.bags <==> b in z.bags)
          && (b in z.bags ==> after.bags[b] == z.bags[b]))
  }

  /** What the player is told. */
  function DropAnswer(inv: Inventory, d: Intent): Outcome
    requires d.Drop?
  {
    if d.item !in inv.items then ItemNotFound
    else if inv.items[d.item].revision != d.revision then ConcurrencyConflict
    else Success
  }

  lemma DropOutcome(z: Zone, player: u64, d: Intent)
    requires d.Drop? && AllSound(z) && player in z.inventories
    ensures var inv := z.inventories[player];
            var (outcome, left, bag) := DroppedItem(player, inv, z.tick, d);
            && outcome == DropAnswer(inv, d)
            && (outcome == Success <==> bag.Some?)
            && (outcome == Success ==>
                  && d.item !in left.items && left.equipment == inv.equipment && OthersKept(inv, left, d.item, d.item)
                  && Freed(inv.grid, d.item, left.grid)
                  && NewBag(bag.value, z, player, inv.items[d.item]))
  {
    WithoutFrees(z.inventories[player].grid, d.item);
  }

  /** A drop succeeds exactly when the item is held at the expected revision. */
  lemma DropEffect(rules: Rules, z: Zone, player: u64, d: Intent)
    requires AllSound(z) && player in z.inventories && d.Drop?
    ensures var inv, (outcome, after) := z.inventories[player], Handled(rules, z, player, d);
            && outcome == Some(DropAnswer(inv, d))
            && (outcome == Some(Success) <==> d.item in inv.items && inv.items[d.item].revision == d.revision)
            && (outcome == Some(Success) ==> DropDone(z, after, player, d))
  {
    DropOutcome(z, player, d);
  }

  // ----- Loot -----

  /** The item of this id that stands first in the bag, at its position. */
  predicate FirstInBag(bag: Bag, id: u64, i: nat) {
    i < |bag.items| && bag.items[i].id == id && forall k :: 0 <= k < i ==> bag.items[k].id != id
  }

  ghost predicate LootAllowed(rules: Rules, z: Zone, player: u64, l: Intent, i: nat)
    requires l.Loot? && player in z.inventories && z.inventories[player].grid.Sized()
  {
    && l.bag in z.bags && rules.inRange(player, l.bag) && FirstInBag(z.bags[l.bag], l.item, i)
    && z.bags[l.bag].items[i].revision == l.revision
    && var d := rules.dimensions(z.bags[l.bag].items[i].definition);
       d.Some? && z.inventories[player].grid.Placeable(Placement(l.slot, l.rotation, d.value), None)
  }

  /** The item is placed in the inventory and owned by the character; in the bag the last item takes its
      place. */
  ghost predicate LootDone(rules: Rules, z: Zone, after: Zone, player: u64, l: Intent, i: nat)
    requires l.Loot? && player in z.inventories && z.inventories[player].grid.Sized()
    requires LootAllowed(rules, z, player, l, i)
  {
    var inv, items := z.inventories[player], z.bags[l.bag].items;
    var p := Placement(l.slot, l.rotation, rules.dimensions(items[i].definition).value);
    && OtherInventories(z, after, player) && after.tick == z.tick && after.nextBagId == z.nextBagId
    && (var held := after.inventories[player];
        && l.item in held.items && HandedTo(items[i], held.items[l.item], OfCharacter(player))
        && held.equipment == inv.equipment && OthersKept(inv, held, l.item, l.item)
        && held.grid.Sized() && inv.grid.Placed(l.item, p, held.grid))
    && l.bag in after.bags
    && (var left := after.bags[l.bag];
        && left == z.bags[l.bag].(items := left.items) && |left.items| == |items| - 1
        && (forall k :: 0 <= k < |left.items| ==> left.items[k] == if k == i then items[|items| - 1] else items[k]))
    && (forall b :: b != l.bag ==>
          && (b in after.bags <==> b in z.bags)
          && (b in z.bags ==> after.bags[b] == z.bags[b]))
  }

  lemma PositionIsFirst(bag: Bag, id: u64)
    ensures var r := PositionOf(bag.items, id);
            if r.Some? then FirstInBag(bag, id, r.value) else forall i: nat :: !FirstInBag(bag, id, i)
  {
    PositionFirst(bag.items, id);
  }

  lemma {:induction false} PositionFirst(items: seq<Item>, id: u64)
    ensures var r := PositionOf(items, id);
            r.Some? ==> forall k :: 0 <= k < r.value ==> items[k].id != id
  {
    if items != [] && items[0].id != id {
      PositionFirst(items[1..], id);
    }
  }

  lemma FirstIsUnique(bag: Bag, id: u64, i: nat, j: nat)
    requires FirstInBag(bag, id, i) && FirstInBag(bag, id, j)
    ensures i == j
  {
  }

  /** What the player is told about the item that stands at `i`, or about none. */
  ghost function LootAnswer(rules: Rules, z: Zone, player: u64, l: Intent, first: Option<nat>): Outcome
    requires l.Loot? && player in z.inventories && z.inventories[player].grid.Sized()
    requires l.bag in z.bags && first.Some? ==> first.value < |z.bags[l.bag].items|
  {
    if l.bag !in z.bags then BagNotFound
    else if !rules.inRange(player, l.bag) then OutOfRange
    else if first.None? then ItemNotFound
    else if z.bags[l.bag].items[first.value].revision != l.revision then ConcurrencyConflict
    else if rules.dimensions(z.bags[l.bag].items[first.value].definition).None? then ItemNotFound
    else if LootAllowed(rules, z, player, l, first.value) then Success
    else InventoryFull
  }

  lemma LootOutcome(rules: Rules, z: Zone, player: u64, l: Intent)
    requires AllSound(z) && player in z.inventories && l.Loot? && l.bag in z.bags
    ensures Looted(rules, player, z.inventories[player], z.bags[l.bag], l.bag, l).0
      == LootAnswer(rules, z, player, l, PositionOf(z.bags[l.bag].items, l.item))
  {
    PositionIsFirst(z.bags[l.bag], l.item);
    match PositionOf(z.bags[l.bag].items, l.item)
    case None =>
    case Some(i) =>
      match rules.dimensions(z.bags[l.bag].items[i].definition)
      case None =>
      case Some(d) => CanPlaceIsPlaceable(z.inventories[player].grid, Placement(l.slot, l.rotation, d), None);
  }

  lemma LootAt(rules: Rules, z: Zone, player: u64, l: Intent, i: nat)
    requires AllSound(z) && player in z.inventories && l.Loot? && l.bag in z.bags
    requires FirstInBag(z.bags[l.bag], l.item, i)
    ensures var (outcome, after) := Handled(rules, z, player, l);
            && outcome == Some(LootAnswer(rules, z, player, l, Some(i)))
            && (outcome == Some(Success) ==> LootDone(rules, z, after, player, l, i))
  {
    LootOutcome(rules, z, player, l);
    PositionIsFirst(z.bags[l.bag], l.item);
    FirstIsUnique(z.bags[l.bag], l.item, i, PositionOf(z.bags[l.bag].items, l.item).value);
    if Handled(rules, z, player, l).0 == Some(Success) {
      var d := rules.dimensions(z.bags[l.bag].items[i].definition).value;
      WithPlacedIsPlaced(z.inventories[player].grid, l.item, Placement(l.slot, l.rotation, d));
    }
  }

  /** A loot succeeds exactly when the bag is there and in range, its first item of the asked id has the
      expected revision, and the item's rectangle may be placed. */
  lemma LootEffect(rules: Rules, z: Zone, player: u64, l: Intent)
    requires AllSound(z) && player in z.inventories && l.Loot?
    ensures var (outcome, after) := Handled(rules, z, player, l);
            && (l.bag !in z.bags ==> outcome == Some(BagNotFound))
            && (l.bag in z.bags && (forall i: nat :: !FirstInBag(z.bags[l.bag], l.item, i)) ==>
                  outcome == Some(LootAnswer(rules, z, player, l, None)))
            && (forall i: nat :: l.bag in z.bags && FirstInBag(z.bags[l.bag], l.item, i) ==>
                  outcome == Some(LootAnswer(rules, z, player, l, Some(i))))
            && (forall i: nat :: outcome == Some(Success) && FirstInBag(z.bags[l.bag], l.item, i) ==>
                  LootDone(rules, z, after, player, l, i))
  {
    if l.bag in z.bags {
      forall i: nat | FirstInBag(z.bags[l.bag], l.item, i)
        ensures var (outcome, after) := Handled(rules, z, player, l);
                && outcome == Some(LootAnswer(rules, z, player, l, Some(i)))
                && (outcome == Some(Success) ==> LootDone(rules, z, after, player, l, i))
      {
        LootAt(rules, z, player, l, i);
      }
      LootOutcome(rules, z, player, l);
      PositionIsFirst(z.bags[l.bag], l.item);
    }
  }

  /** An unknown player's intent does nothing. */
  lemma StrangerEffect(rules: Rules, z: Zone, player: u64, intent: Intent)
    requires AllSound(z) && player !in z.inventories
    ensures Handled(rules, z, player, intent) == (None, z)
  {
  }

  // ----- Decay and the queue -----

  /** Decay takes exactly the bags that lay as long as they may, and those that may not lie at all. */
  lemma DecayEffect(z: Zone, b: u64)
    requires b in z.bags
    ensures var (bag, after) := (z.bags[b], Decayed(z));
            && (b in after.bags <==> bag.decayAfter > 0 && z.tick < bag.spawnedAt + bag.decayAfter)
            && after == z.(bags := after.bags) && after.bags.Keys <= z.bags.Keys
            && (b in after.bags ==> after.bags[b] == bag)
  {
  }

  /** Who is told of an intent, and what. */
  function Told(player: u64, outcome: Option<Outcome>): seq<Processed> {
    if outcome.Some? then [Processed(player, outcome.value)] else []
  }

  lemma LastHandled(rules: Rules, z: Zone, earlier: seq<Queued>, last: Queued)
    requires AllSized(z)
    ensures var (outcome, after) := Handled(rules, HandledAll(rules, z, earlier), last.player, last.intent);
            && HandledAll(rules, z, earlier + [last]) == after
            && EventsOf(rules, z, earlier + [last]) == EventsOf(rules, z, earlier) + Told(last.player, outcome)
  {
    assert (earlier + [last])[..|earlier|] == earlier;
  }

  /** The queue is handled in its order: first the intents in front, and then, from what they left, the
      others. */
  lemma {:induction false} QueueInOrder(rules: Rules, z: Zone, front: seq<Queued>, back: seq<Queued>)
    requires AllSized(z)
    ensures HandledAll(rules, z, front + back) == HandledAll(rules, HandledAll(rules, z, front), back)
    decreases |back|
  {
    if back == [] {
      assert front + back == front;
    } else {
      var earlier, last := back[..|back| - 1], back[|back| - 1];
      QueueInOrder(rules, z, front, earlier);
      assert front + back == front + earlier + [last] && back == earlier + [last];
      LastHandled(rules, z, front + earlier, last);
      LastHandled(rules, HandledAll(rules, z, front), earlier, last);
    }
  }

  /** And each player is told of their own intents in that order. */
  lemma {:induction false} EventsInOrder(rules: Rules, z: Zone, front: seq<Queued>, back: seq<Queued>)
    requires AllSized(z)
    ensures EventsOf(rules, z, front + back)
              == EventsOf(rules, z, front) + EventsOf(rules, HandledAll(rules, z, front), back)
    decreases |back|
  {
    if back == [] {
      assert front + back == front;
    } else {
      var earlier, last := back[..|back| - 1], back[|back| - 1];
      EventsInOrder(rules, z, front, earlier);
      QueueInOrder(rules, z, front, earlier);
      assert front + back == front + earlier + [last] && back == earlier + [last];
      LastHandled(rules, z, front + earlier, last);
      LastHandled(rules, HandledAll(rules, z, front), earlier, last);
    }
  }

  /** An intent alone in the queue is handled, and its player told. */
  lemma OneHandled(rules: Rules, z: Zone, only: Queued)
    requires AllSized(z)
    ensures var (outcome, after) := Handled(rules, z, only.player, only.intent);
            HandledAll(rules, z, [only]) == after && EventsOf(rules, z, [only]) == Told(only.player, outcome)
  {
    LastHandled(rules, z, [], only);
    assert [] + [only] == [only];
  }
}
