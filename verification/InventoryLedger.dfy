/** Looting, moving, merging, splitting, dropping and equipping items in one zone
    (crates/simulation/src/loot.rs, crates/simulation/src/zone.rs, crates/domain/src/items.rs). */
module InventoryLedger {
  import opened MachineInts
  import opened MapTotals
  import opened InventoryGrids

  const MAX_STACK: u32 := 100
  const BAG_DECAY_TICKS: u64 := 600

  datatype Ownership = OfCharacter(character: u64) | OfWorld

  /** An item; the fields that no handler reads or writes are left out. */
  datatype Item = Item(id: u64, definition: u32, owner: Ownership, revision: u64, quantity: u32, ownerCount: u32)

  datatype EquipmentSlot = Head | Chest | Hands | Legs | Feet | MainHand | OffHand

  datatype Inventory = Inventory(grid: GridView, equipment: map<EquipmentSlot, Item>, items: map<u64, Item>)

  datatype Bag = Bag(owner: u64, spawnedAt: u64, decayAfter: u64, items: seq<Item>)

  datatype Zone = Zone(inventories: map<u64, Inventory>, bags: map<u64, Bag>, nextBagId: u64, tick: u64)

  /** What the zone is told about definitions and distances. */
  datatype Rules = Rules(
    dimensions: u32 -> Option<Dimensions>,
    slotFor: u32 -> Option<EquipmentSlot>,
    inRange: (u64, u64) -> bool)

  datatype Intent =
    | Loot(bag: u64, item: u64, revision: u64, slot: Slot, rotation: Rotation)
    | MoveOrRotate(item: u64, revision: u64, slot: Slot, rotation: Rotation)
    | Merge(source: u64, target: u64, sourceRevision: u64, targetRevision: u64)
    | Split(source: u64, revision: u64, quantity: u32, slot: Slot, rotation: Rotation, newId: u64)
    | Drop(item: u64, revision: u64)
    | Equip(item: u64, revision: u64, slotKind: EquipmentSlot)

  datatype Outcome =
    | Success
    | BagNotFound | OutOfRange | ItemNotFound | ConcurrencyConflict | InventoryFull
    | InvalidPlacement | IncompatibleItems | StackLimitExceeded | InvalidSplitQuantity
    | IncompatibleSlot | SlotAlreadyOccupied

  function Bumped(n: u64): u64 { Min(n + 1, U64_MAX) }

  function Transferred(item: Item, owner: Ownership): Item {
    if item.owner == owner then item
    else item.(owner := owner, ownerCount := Min(item.ownerCount + 1, U32_MAX), revision := Bumped(item.revision))
  }

  /** The first position of an id in a bag. */
  function PositionOf(items: seq<Item>, id: u64): (r: Option<nat>)
    ensures r.Some? ==> r.value < |items| && items[r.value].id == id
    ensures r.None? ==> forall i :: 0 <= i < |items| ==> items[i].id != id
  {
    if items == [] then None
    else if items[0].id == id then Some(0)
    else
      match PositionOf(items[1..], id)
      case Some(i) => assert items[1..][i] == items[i + 1]; Some(i + 1)
      case None => assert forall i :: 0 < i < |items| ==> items[i] == items[1..][i - 1]; None
  }

  /** The last element takes the place of the removed one. */
  function SwapRemoved(items: seq<Item>, i: nat): seq<Item>
    requires i < |items|
  {
    items[i := items[|items| - 1]][..|items| - 1]
  }

  // ----- The handlers -----

  /** The well-formedness that the handlers rely on: grids sized, items keyed by their id. */
  ghost predicate Sound(inv: Inventory) {
    && inv.grid.Agrees()
    && (forall k :: k in inv.items ==> inv.items[k].id == k)
    && (forall k :: k in inv.grid.placements ==> k in inv.items)
  }

  function Looted(rules: Rules, player: u64, inv: Inventory, bag: Bag, bagId: u64, intent: Intent)
    : (Outcome, Inventory, Bag)
    requires intent.Loot? && inv.grid.Sized()
  {
    if !rules.inRange(player, bagId) then (OutOfRange, inv, bag)
    else
      match PositionOf(bag.items, intent.item)
      case None => (ItemNotFound, inv, bag)
      case Some(i) =>
        var item := bag.items[i];
        if item.revision != intent.revision then (ConcurrencyConflict, inv, bag)
        else
          match rules.dimensions(item.definition)
          case None => (ItemNotFound, inv, bag)
          case Some(dimensions) =>
            var p := Placement(intent.slot, intent.rotation, dimensions);
            if !CanPlace(inv.grid, p, None) then (InventoryFull, inv, bag)
            else
              (Success,
               inv.(grid := WithPlaced(inv.grid, item.id, p),
                    items := inv.items[item.id := Transferred(item, OfCharacter(player))]),
               bag.(items := SwapRemoved(bag.items, i)))
  }

  function MovedItem(inv: Inventory, intent: Intent): (Outcome, Inventory)
    requires intent.MoveOrRotate? && inv.grid.Sized()
  {
    if intent.item !in inv.items then (ItemNotFound, inv)
    else
      var item := inv.items[intent.item];
      if item.id != intent.item then (ItemNotFound, inv)
      else if item.revision != intent.revision then (ConcurrencyConflict, inv)
      else if item.id !in inv.grid.placements then (InvalidPlacement, inv)
      else
        var p := Placement(intent.slot, intent.rotation, inv.grid.placements[item.id].dimensions);
        if !CanPlace(inv.grid, p, Some(item.id)) then (InvalidPlacement, inv)
        else
          SizedWithout(inv.grid, item.id);
          (Success, inv.(grid := WithPlaced(Without(inv.grid, item.id), item.id, p),
                         items := inv.items[intent.item := item.(revision := Bumped(item.revision))]))
  }

  /** The source is taken out, and put back when anything of it is left. */
  function MergedItems(inv: Inventory, intent: Intent): (Outcome, Inventory)
    requires intent.Merge? && inv.grid.Sized()
  {
    if intent.source !in inv.items then (ItemNotFound, inv)
    else
      var source := inv.items[intent.source];
      var rest := inv.items - {intent.source};
      if intent.target !in rest then (ItemNotFound, inv.(items := rest[source.id := source]))
      else
        var target := rest[intent.target];
        var restored := inv.(items := rest[source.id := source]);
        if source.id != intent.source || target.id != intent.target then (ItemNotFound, restored)
        else if source.revision != intent.sourceRevision || target.revision != intent.targetRevision
        then (ConcurrencyConflict, restored)
        else if source.definition != target.definition then (IncompatibleItems, restored)
        else if target.quantity >= MAX_STACK then (StackLimitExceeded, restored)
        else
          var amount := Min(source.quantity, MAX_STACK - target.quantity);
          var source' := source.(quantity := source.quantity - amount, revision := Bumped(source.revision));
          var target' := target.(quantity := target.quantity + amount, revision := Bumped(target.revision));
          if source'.quantity == 0 then
            SizedWithout(inv.grid, source.id);
            (Success, inv.(grid := Without(inv.grid, source.id), items := rest[intent.target := target']))
          else (Success, inv.(items := rest[intent.target := target'][source.id := source']))
  }

  function SplitItem(rules: Rules, inv: Inventory, intent: Intent): (Outcome, Inventory)
    requires intent.Split? && inv.grid.Sized()
  {
    if intent.source !in inv.items then (ItemNotFound, inv)
    else
      var source := inv.items[intent.source];
      if source.id != intent.source then (ItemNotFound, inv)
      else if source.revision != intent.revision then (ConcurrencyConflict, inv)
      else if intent.quantity == 0 || intent.quantity >= source.quantity then (InvalidSplitQuantity, inv)
      else
        match rules.dimensions(source.definition)
        case None => (ItemNotFound, inv)
        case Some(dimensions) =>
          var p := Placement(intent.slot, intent.rotation, dimensions);
          if !CanPlace(inv.grid, p, None) then (InvalidPlacement, inv)
          else
            var created := Item(intent.newId, source.definition, source.owner, 1, intent.quantity, 0);
            (Success,
             inv.(grid := WithPlaced(inv.grid, intent.newId, p),
                  items := inv.items[intent.source := source.(quantity := source.quantity - intent.quantity,
                                                              revision := Bumped(source.revision))]
                                    [intent.newId := created]))
  }

  /** The item leaves the inventory and becomes the only content of a new bag. */
  function DroppedItem(player: u64, inv: Inventory, tick: u64, intent: Intent): (Outcome, Inventory, Option<Bag>)
    requires intent.Drop? && inv.grid.Sized()
  {
    if intent.item !in inv.items then (ItemNotFound, inv, None)
    else
      var item := inv.items[intent.item];
      var rest := inv.items - {intent.item};
      if item.id != intent.item then (ItemNotFound, inv.(items := rest[item.id := item]), None)
      else if item.revision != intent.revision then (ConcurrencyConflict, inv.(items := rest[item.id := item]), None)
      else
        SizedWithout(inv.grid, item.id);
        (Success, inv.(grid := Without(inv.grid, item.id), items := rest),
         Some(Bag(player, tick, BAG_DECAY_TICKS, [Transferred(item, OfWorld)])))
  }

  /** The item stays in the inventory's items and is copied to the slot. */
  function EquippedItem(rules: Rules, inv: Inventory, intent: Intent): (Outcome, Inventory)
    requires intent.Equip? && inv.grid.Sized()
  {
    if intent.item !in inv.items then (ItemNotFound, inv)
    else
      var item := inv.items[intent.item];
      if item.id != intent.item then (ItemNotFound, inv)
      else if item.revision != intent.revision then (ConcurrencyConflict, inv)
      else if rules.slotFor(item.definition) != Some(intent.slotKind) then (IncompatibleSlot, inv)
      else if intent.slotKind in inv.equipment then (SlotAlreadyOccupied, inv)
      else
        SizedWithout(inv.grid, item.id);
        var item' := item.(revision := Bumped(item.revision));
        (Success, inv.(grid := Without(inv.grid, item.id), equipment := inv.equipment[intent.slotKind := item'],
                       items := inv.items[intent.item := item']))
  }

  lemma SizedWithout(g: GridView, id: u64)
    requires g.Sized()
    ensures Without(g, id).Sized()
  {
  }

  /** `Placeable`, decided. */
  predicate CanPlace(g: GridView, p: Placement, ignored: Option<u64>)
    requires g.Sized()
  {
    && g.SaturatedFits(p)
    && forall x, y | p.origin.x <= x < p.origin.x + p.Extent().width
                     && p.origin.y <= y < p.origin.y + p.Extent().height ::
         g.Inside(x, y) && g.FreeFor(x, y, ignored)
  }

  // ----- The zone -----

  function WithInventory(z: Zone, player: u64, inv: Inventory): Zone {
    z.(inventories := z.inventories[player := inv])
  }

  /** One intent of one player; an unknown player's intent is skipped. */
  function Handled(rules: Rules, z: Zone, player: u64, intent: Intent): (Option<Outcome>, Zone)
    requires forall p :: p in z.inventories ==> z.inventories[p].grid.Sized()
  {
    if player !in z.inventories then (None, z)
    else
      var inv := z.inventories[player];
      match intent
      case Loot(bagId, _, _, _, _) =>
        if bagId !in z.bags then (Some(BagNotFound), z)
        else
          var (outcome, inv', bag') := Looted(rules, player, inv, z.bags[bagId], bagId, intent);
          (Some(outcome), WithInventory(z, player, inv').(bags := z.bags[bagId := bag']))
      case MoveOrRotate(_, _, _, _) =>
        var (outcome, inv') := MovedItem(inv, intent); (Some(outcome), WithInventory(z, player, inv'))
      case Merge(_, _, _, _) =>
        var (outcome, inv') := MergedItems(inv, intent); (Some(outcome), WithInventory(z, player, inv'))
      case Split(_, _, _, _, _, _) =>
        var (outcome, inv') := SplitItem(rules, inv, intent); (Some(outcome), WithInventory(z, player, inv'))
      case Drop(item, _) =>
        var (outcome, inv', bag) := DroppedItem(player, inv, z.tick, intent);
        var nextBagId := if item in inv.items then Bumped(z.nextBagId) else z.nextBagId;
        var after := WithInventory(z, player, inv').(nextBagId := nextBagId);
        (Some(outcome), if bag.Some? then after.(bags := z.bags[after.nextBagId := bag.value]) else after)
      case Equip(_, _, _) =>
        var (outcome, inv') := EquippedItem(rules, inv, intent); (Some(outcome), WithInventory(z, player, inv'))
  }

  predicate Expired(bag: Bag, tick: u64) { Max(tick - bag.spawnedAt, 0) >= bag.decayAfter }

  function Decayed(z: Zone): Zone {
    z.(bags := map b | b in z.bags && !Expired(z.bags[b], z.tick) :: z.bags[b])
  }

  // ----- The ledger -----

  function SumItems(items: seq<Item>, w: Item -> nat): nat {
    if items == [] then 0 else SumItems(items[..|items| - 1], w) + w(items[|items| - 1])
  }

  /** The quantity of one definition. */
  function AmountOf(definition: u32): Item -> nat {
    (item: Item) => if item.definition == definition then item.quantity else 0
  }

  ghost function Carried(definition: u32): Inventory -> nat {
    (inv: Inventory) => Total(inv.items, AmountOf(definition))
  }

  function Bagged(definition: u32): Bag -> nat { (bag: Bag) => SumItems(bag.items, AmountOf(definition)) }

  /** All of one definition, in every player's items and every bag. */
  ghost function Ledger(z: Zone, definition: u32): nat {
    Total(z.inventories, Carried(definition)) + Total(z.bags, Bagged(definition))
  }

  lemma {:induction false} SumReplaced(items: seq<Item>, i: nat, item: Item, w: Item -> nat)
    requires i < |items|
    ensures SumItems(items[i := item], w) + w(items[i]) == SumItems(items, w) + w(item)
    decreases |items|
  {
    var n := |items| - 1;
    if i < n {
      SumReplaced(items[..n], i, item, w);
      assert items[i := item][..n] == items[..n][i := item];
    } else {
      assert items[i := item][..n] == items[..n];
    }
  }

  lemma SumSwapRemoved(items: seq<Item>, i: nat, w: Item -> nat)
    requires i < |items|
    ensures SumItems(SwapRemoved(items, i), w) + w(items[i]) == SumItems(items, w)
  {
    SumReplaced(items, i, items[|items| - 1], w);
  }

  /** What a value about to be stored under a key overwrites. */
  function Overwritten<V>(m: map<u64, V>, key: u64, f: V -> nat): nat {
    if key in m then f(m[key]) else 0
  }

  lemma LootBalances(rules: Rules, player: u64, inv: Inventory, bag: Bag, bagId: u64, intent: Intent, definition: u32)
    requires intent.Loot? && inv.grid.Sized()
    ensures var (outcome, inv', bag') := Looted(rules, player, inv, bag, bagId, intent);
            Carried(definition)(inv') + Bagged(definition)(bag')
            + (if outcome == Success then Overwritten(inv.items, intent.item, AmountOf(definition)) else 0)
            == Carried(definition)(inv) + Bagged(definition)(bag)
  {
    var (outcome, inv', bag') := Looted(rules, player, inv, bag, bagId, intent);
    if outcome == Success {
      var i := PositionOf(bag.items, intent.item).value;
      SumSwapRemoved(bag.items, i, AmountOf(definition));
      TotalPut(inv.items, AmountOf(definition), intent.item, Transferred(bag.items[i], OfCharacter(player)));
    }
  }

  lemma MoveConserves(inv: Inventory, intent: Intent, definition: u32)
    requires intent.MoveOrRotate? && inv.grid.Sized()
    ensures Carried(definition)(MovedItem(inv, intent).1) == Carried(definition)(inv)
  {
    if MovedItem(inv, intent).0 == Success {
      TotalReplaced(inv.items, AmountOf(definition), intent.item, MovedItem(inv, intent).1.items[intent.item]);
    }
  }

  lemma EquipConserves(rules: Rules, inv: Inventory, intent: Intent, definition: u32)
    requires intent.Equip? && inv.grid.Sized()
    ensures Carried(definition)(EquippedItem(rules, inv, intent).1) == Carried(definition)(inv)
  {
    if EquippedItem(rules, inv, intent).0 == Success {
      TotalReplaced(inv.items, AmountOf(definition), intent.item,
        EquippedItem(rules, inv, intent).1.items[intent.item]);
    }
  }

  lemma MergeConserves(inv: Inventory, intent: Intent, definition: u32)
    requires intent.Merge? && inv.grid.Sized() && forall k :: k in inv.items ==> inv.items[k].id == k
    ensures Carried(definition)(MergedItems(inv, intent).1) == Carried(definition)(inv)
  {
    if MergedItems(inv, intent).0 == Success {
      MergeShifts(inv, intent, definition);
    } else if intent.source in inv.items {
      var source := inv.items[intent.source];
      var rest: map<u64, Item> := inv.items - {intent.source};
      assert rest[source.id := source] == inv.items;
    }
  }

  /** A merge that succeeds moves quantity from one item to another of the same definition. */
  lemma MergeShifts(inv: Inventory, intent: Intent, definition: u32)
    requires intent.Merge? && inv.grid.Sized() && MergedItems(inv, intent).0 == Success
    ensures Carried(definition)(MergedItems(inv, intent).1) == Carried(definition)(inv)
  {
    var source, target := inv.items[intent.source], (inv.items - {intent.source})[intent.target];
    var amount := Min(source.quantity, MAX_STACK - target.quantity);
    var source' := source.(quantity := source.quantity - amount, revision := Bumped(source.revision));
    var target' := target.(quantity := target.quantity + amount, revision := Bumped(target.revision));
    TotalShifted(inv.items, AmountOf(definition), intent.source, intent.target, source', target');
  }

  /** The source of a split with its share taken out. */
  function Reduced(inv: Inventory, intent: Intent): map<u64, Item>
    requires intent.Split? && intent.source in inv.items && intent.quantity <= inv.items[intent.source].quantity
  {
    var source := inv.items[intent.source];
    inv.items[intent.source := source.(quantity := source.quantity - intent.quantity,
                                       revision := Bumped(source.revision))]
  }

  lemma SplitBalances(rules: Rules, inv: Inventory, intent: Intent, definition: u32)
    requires intent.Split? && inv.grid.Sized()
    ensures var (outcome, inv') := SplitItem(rules, inv, intent);
            Carried(definition)(inv')
            + (if outcome == Success then Overwritten(Reduced(inv, intent), intent.newId, AmountOf(definition)) else 0)
            == Carried(definition)(inv)
  {
    var w := AmountOf(definition);
    if SplitItem(rules, inv, intent).0 == Success {
      var source := inv.items[intent.source];
      TotalReplaced(inv.items, w, intent.source, Reduced(inv, intent)[intent.source]);
      TotalPut(Reduced(inv, intent), w, intent.newId,
        Item(intent.newId, source.definition, source.owner, 1, intent.quantity, 0));
    }
  }

  lemma DropConserves(player: u64, inv: Inventory, tick: u64, intent: Intent, definition: u32)
    requires intent.Drop? && inv.grid.Sized()
    requires forall k :: k in inv.items ==> inv.items[k].id == k
    ensures var (_, inv', bag) := DroppedItem(player, inv, tick, intent);
            Carried(definition)(inv') + (if bag.Some? then Bagged(definition)(bag.value) else 0)
              == Carried(definition)(inv)
  {
    var w := AmountOf(definition);
    if intent.item in inv.items {
      var item := inv.items[intent.item];
      assert (inv.items - {intent.item})[item.id := item] == inv.items;
      TotalWithout(inv.items, w, intent.item);
      assert [Transferred(item, OfWorld)][..0] == [];
      assert SumItems([Transferred(item, OfWorld)], w) == w(Transferred(item, OfWorld));
    }
  }

  ghost predicate AllSound(z: Zone) {
    forall p :: p in z.inventories ==> Sound(z.inventories[p])
  }

  /** What an intent overwrites of one definition: only a split, a loot or a drop stores under a
      key that might be in use. */
  function Lost(rules: Rules, z: Zone, player: u64, intent: Intent, definition: u32): nat
    requires forall p :: p in z.inventories ==> z.inventories[p].grid.Sized()
  {
    if Handled(rules, z, player, intent).0 != Some(Success) then 0
    else
      match intent
      case Loot(_, item, _, _, _) => Overwritten(z.inventories[player].items, item, AmountOf(definition))
      case Split(_, _, _, _, _, newId) =>
        Overwritten(Reduced(z.inventories[player], intent), newId, AmountOf(definition))
      case Drop(_, _) => Overwritten(z.bags, Bumped(z.nextBagId), Bagged(definition))
      case _ => 0
  }

  lemma LootLedger(rules: Rules, z: Zone, player: u64, intent: Intent, definition: u32)
    requires AllSound(z) && player in z.inventories && intent.Loot?
    ensures Ledger(Handled(rules, z, player, intent).1, definition) + Lost(rules, z, player, intent, definition)
              == Ledger(z, definition)
  {
    var after := Handled(rules, z, player, intent).1;
    TotalReplaced(z.inventories, Carried(definition), player, after.inventories[player]);
    if intent.bag in z.bags {
      LootBalances(rules, player, z.inventories[player], z.bags[intent.bag], intent.bag, intent, definition);
      TotalReplaced(z.bags, Bagged(definition), intent.bag, after.bags[intent.bag]);
    }
  }

  lemma DropLedger(rules: Rules, z: Zone, player: u64, intent: Intent, definition: u32)
    requires AllSound(z) && player in z.inventories && intent.Drop?
    ensures Ledger(Handled(rules, z, player, intent).1, definition) + Lost(rules, z, player, intent, definition)
              == Ledger(z, definition)
  {
    var after := Handled(rules, z, player, intent).1;
    TotalReplaced(z.inventories, Carried(definition), player, after.inventories[player]);
    DropConserves(player, z.inventories[player], z.tick, intent, definition);
    var bag := DroppedItem(player, z.inventories[player], z.tick, intent).2;
    if bag.Some? {
      TotalPut(z.bags, Bagged(definition), after.nextBagId, bag.value);
    }
  }

  /** The ledger of every intent: nothing is created, and nothing is lost but what is overwritten. */
  lemma IntentBalances(rules: Rules, z: Zone, player: u64, intent: Intent, definition: u32)
    requires AllSound(z)
    ensures Ledger(Handled(rules, z, player, intent).1, definition) + Lost(rules, z, player, intent, definition)
              == Ledger(z, definition)
  {
    if player in z.inventories {
      var inv := z.inventories[player];
      match intent {
        case Loot(_, _, _, _, _) => LootLedger(rules, z, player, intent, definition);
        case Drop(_, _) => DropLedger(rules, z, player, intent, definition);
        case _ =>
          TotalReplaced(z.inventories, Carried(definition), player,
                        Handled(rules, z, player, intent).1.inventories[player]);
          match intent {
            case MoveOrRotate(_, _, _, _) => MoveConserves(inv, intent, definition);
            case Merge(_, _, _, _) => MergeConserves(inv, intent, definition);
            case Split(_, _, _, _, _, _) => SplitBalances(rules, inv, intent, definition);
            case Equip(_, _, _) => EquipConserves(rules, inv, intent, definition);
          }
      }
    }
  }

  // ----- Each item is in one place -----

  datatype Place = Held(player: u64, key: u64) | InBag(bag: u64, index: nat)

  function ItemAt(z: Zone, place: Place): Option<Item> {
    match place
    case Held(player, key) =>
      if player in z.inventories && key in z.inventories[player].items
      then Some(z.inventories[player].items[key]) else None
    case InBag(bag, index) =>
      if bag in z.bags && index < |z.bags[bag].items| then Some(z.bags[bag].items[index]) else None
  }

  ghost predicate IdAt(z: Zone, place: Place, id: u64) {
    ItemAt(z, place).Some? && ItemAt(z, place).value.id == id
  }

  /** Each item id is in at most one inventory or bag, and there once. */
  ghost predicate Unique(z: Zone) {
    forall a, b, id :: IdAt(z, a, id) && IdAt(z, b, id) ==> a == b
  }

  ghost predicate Unused(z: Zone, id: u64) {
    forall a :: !IdAt(z, a, id)
  }

  ghost predicate BagsNumbered(z: Zone) {
    forall b :: b in z.bags ==> b <= z.nextBagId
  }

  ghost predicate ZoneInvariant(z: Zone) {
    AllSound(z) && Unique(z) && BagsNumbered(z)
  }

  /** The identifiers a client and the zone supply: a split names an unused id, and bag ids have not
      run out. */
  ghost predicate Fresh(z: Zone, intent: Intent) {
    && (intent.Split? ==> Unused(z, intent.newId))
    && (intent.Drop? ==> z.nextBagId < U64_MAX)
  }

  /** With fresh ids nothing is overwritten. */
  lemma FreshLosesNothing(rules: Rules, z: Zone, player: u64, intent: Intent, definition: u32)
    requires ZoneInvariant(z) && Fresh(z, intent)
    ensures Lost(rules, z, player, intent, definition) == 0
  {
    if player in z.inventories && Handled(rules, z, player, intent).0 == Some(Success) {
      match intent {
        case Loot(bagId, item, _, _, _) =>
          var i := PositionOf(z.bags[bagId].items, item).value;
          assert IdAt(z, InBag(bagId, i), item);
          assert item in z.inventories[player].items ==> IdAt(z, Held(player, item), item);
        case Split(source, _, _, _, _, newId) =>
          assert !IdAt(z, Held(player, newId), newId);
          assert newId !in z.inventories[player].items;
          assert IdAt(z, Held(player, source), source);
        case _ =>
      }
    }
  }

  // Soundness of the inventory

  lemma CanPlaceIsPlaceable(g: GridView, p: Placement, ignored: Option<u64>)
    requires g.Sized()
    ensures CanPlace(g, p, ignored) <==> g.Placeable(p, ignored)
  {
    if CanPlace(g, p, ignored) {
      forall x, y | p.Holds(x, y)
        ensures g.Inside(x, y) && g.FreeFor(x, y, ignored)
      {
      }
    }
    if g.Placeable(p, ignored) {
      forall x, y | p.origin.x <= x < p.origin.x + p.Extent().width && p.origin.y <= y < p.origin.y + p.Extent().height
        ensures g.Inside(x, y) && g.FreeFor(x, y, ignored)
      {
        assert p.Holds(x, y);
      }
    }
  }

  lemma PlacingIsSound(g: GridView, id: u64, p: Placement)
    requires g.Agrees() && id !in g.placements && CanPlace(g, p, None)
    ensures WithPlaced(g, id, p).Agrees()
  {
    CanPlaceIsPlaceable(g, p, None);
    WithPlacedIsPlaced(g, id, p);
    g.PlacingKeepsAgreement(id, p, WithPlaced(g, id, p));
  }

  lemma RemovingIsSound(g: GridView, id: u64)
    requires g.Agrees()
    ensures Without(g, id).Agrees()
  {
    if id in g.placements {
      WithoutIsRemoved(g, id);
      g.RemovingKeepsAgreement(id, Without(g, id));
    }
  }

  lemma MovingIsSound(g: GridView, id: u64, p: Placement)
    requires g.Agrees() && id in g.placements && CanPlace(g, p, Some(id))
    ensures WithPlaced(Without(g, id), id, p).Agrees()
    ensures CanPlace(Without(g, id), p, None)
  {
    RemovingIsSound(g, id);
    WithoutIsRemoved(g, id);
    CanPlaceIsPlaceable(g, p, Some(id));
    g.RemovedMakesRoom(id, p, Without(g, id));
    CanPlaceIsPlaceable(Without(g, id), p, None);
    PlacingIsSound(Without(g, id), id, p);
  }

  lemma LootIsSound(rules: Rules, player: u64, inv: Inventory, bag: Bag, bagId: u64, intent: Intent)
    requires intent.Loot? && Sound(inv)
    requires Looted(rules, player, inv, bag, bagId, intent).0 == Success ==> intent.item !in inv.items
    ensures Sound(Looted(rules, player, inv, bag, bagId, intent).1)
  {
    if Looted(rules, player, inv, bag, bagId, intent).0 == Success {
      var i := PositionOf(bag.items, intent.item).value;
      var p := Placement(intent.slot, intent.rotation, rules.dimensions(bag.items[i].definition).value);
      PlacingIsSound(inv.grid, intent.item, p);
    }
  }

  lemma MoveIsSound(inv: Inventory, intent: Intent)
    requires intent.MoveOrRotate? && Sound(inv)
    ensures Sound(MovedItem(inv, intent).1)
  {
    if MovedItem(inv, intent).0 == Success {
      MovingIsSound(inv.grid, intent.item,
        Placement(intent.slot, intent.rotation, inv.grid.placements[intent.item].dimensions));
    }
  }

  lemma MergeIsSound(inv: Inventory, intent: Intent)
    requires intent.Merge? && Sound(inv)
    ensures Sound(MergedItems(inv, intent).1)
  {
    RemovingIsSound(inv.grid, intent.source);
  }

  lemma SplitIsSound(rules: Rules, inv: Inventory, intent: Intent)
    requires intent.Split? && Sound(inv) && intent.newId !in inv.items
    ensures Sound(SplitItem(rules, inv, intent).1)
  {
    if SplitItem(rules, inv, intent).0 == Success {
      var p := Placement(intent.slot, intent.rotation, rules.dimensions(inv.items[intent.source].definition).value);
      PlacingIsSound(inv.grid, intent.newId, p);
    }
  }

  lemma DropIsSound(player: u64, inv: Inventory, tick: u64, intent: Intent)
    requires intent.Drop? && Sound(inv)
    ensures Sound(DroppedItem(player, inv, tick, intent).1)
  {
    RemovingIsSound(inv.grid, intent.item);
  }

  lemma EquipIsSound(rules: Rules, inv: Inventory, intent: Intent)
    requires intent.Equip? && Sound(inv)
    ensures Sound(EquippedItem(rules, inv, intent).1)
  {
    RemovingIsSound(inv.grid, intent.item);
  }

  /** A grid keeps agreeing with its cells, and holds only items of its inventory. */
  lemma IntentKeepsSound(rules: Rules, z: Zone, player: u64, intent: Intent)
    requires ZoneInvariant(z) && Fresh(z, intent)
    ensures AllSound(Handled(rules, z, player, intent).1)
  {
    if player in z.inventories {
      var inv := z.inventories[player];
      match intent {
        case Loot(bagId, item, _, _, _) =>
          if bagId in z.bags {
            FreshLoot(rules, z, player, intent);
            LootIsSound(rules, player, inv, z.bags[bagId], bagId, intent);
          }
        case MoveOrRotate(_, _, _, _) => MoveIsSound(inv, intent);
        case Merge(_, _, _, _) => MergeIsSound(inv, intent);
        case Split(_, _, _, _, _, newId) =>
          assert !IdAt(z, Held(player, newId), newId);
          SplitIsSound(rules, inv, intent);
        case Drop(_, _) => DropIsSound(player, inv, z.tick, intent);
        case Equip(_, _, _) => EquipIsSound(rules, inv, intent);
      }
    }
  }

  lemma FreshLoot(rules: Rules, z: Zone, player: u64, intent: Intent)
    requires ZoneInvariant(z) && intent.Loot? && player in z.inventories && intent.bag in z.bags
    ensures Looted(rules, player, z.inventories[player], z.bags[intent.bag], intent.bag, intent).0 == Success ==>
              intent.item !in z.inventories[player].items
  {
    var items := z.bags[intent.bag].items;
    if PositionOf(items, intent.item).Some? {
      assert IdAt(z, InBag(intent.bag, PositionOf(items, intent.item).value), intent.item);
      assert intent.item in z.inventories[player].items ==> IdAt(z, Held(player, intent.item), intent.item);
    }
  }

  // Uniqueness

  /** Where the item at a place was before the intent. */
  function Origin(z: Zone, player: u64, intent: Intent, place: Place): Place {
    match intent
    case Loot(bagId, item, _, _, _) =>
      if bagId !in z.bags || PositionOf(z.bags[bagId].items, item).None? then place
      else
        var i := PositionOf(z.bags[bagId].items, item).value;
        if place == Held(player, item) then InBag(bagId, i)
        else if place == InBag(bagId, i) then InBag(bagId, |z.bags[bagId].items| - 1)
        else place
    case Drop(item, _) => if place == InBag(Bumped(z.nextBagId), 0) then Held(player, item) else place
    case _ => place
  }

  lemma LootedFromOrigins(rules: Rules, z: Zone, player: u64, intent: Intent, place: Place, id: u64)
    requires ZoneInvariant(z) && intent.Loot? && Handled(rules, z, player, intent).0 == Some(Success)
    requires IdAt(Handled(rules, z, player, intent).1, place, id)
    ensures IdAt(z, Origin(z, player, intent, place), id)
  {
  }

  lemma DroppedFromOrigins(rules: Rules, z: Zone, player: u64, intent: Intent, place: Place, id: u64)
    requires ZoneInvariant(z) && intent.Drop? && Handled(rules, z, player, intent).0 == Some(Success)
    requires IdAt(Handled(rules, z, player, intent).1, place, id)
    ensures IdAt(z, Origin(z, player, intent, place), id)
  {
  }

  lemma ChangedInPlace(rules: Rules, z: Zone, player: u64, intent: Intent, place: Place, id: u64)
    requires ZoneInvariant(z) && (intent.MoveOrRotate? || intent.Merge? || intent.Equip?)
    requires Handled(rules, z, player, intent).0 == Some(Success)
    requires IdAt(Handled(rules, z, player, intent).1, place, id)
    ensures IdAt(z, place, id)
  {
  }

  lemma SplitInPlace(rules: Rules, z: Zone, player: u64, intent: Intent, place: Place, id: u64)
    requires ZoneInvariant(z) && intent.Split? && Handled(rules, z, player, intent).0 == Some(Success)
    requires IdAt(Handled(rules, z, player, intent).1, place, id)
    ensures IdAt(z, place, id) || (place == Held(player, intent.newId) && id == intent.newId)
  {
  }

  /** Every item comes from a place it had before, except the one a split creates. */
  lemma ItemsComeFromOrigins(rules: Rules, z: Zone, player: u64, intent: Intent, place: Place, id: u64)
    requires ZoneInvariant(z) && Handled(rules, z, player, intent).0 == Some(Success)
    requires IdAt(Handled(rules, z, player, intent).1, place, id)
    ensures IdAt(z, Origin(z, player, intent, place), id)
            || (intent.Split? && place == Held(player, intent.newId) && id == intent.newId)
  {
    if intent.Loot? {
      LootedFromOrigins(rules, z, player, intent, place, id);
    } else if intent.Drop? {
      DroppedFromOrigins(rules, z, player, intent, place, id);
    } else if intent.Split? {
      SplitInPlace(rules, z, player, intent, place, id);
    } else {
      ChangedInPlace(rules, z, player, intent, place, id);
    }
  }

  /** Two places never share an origin. */
  lemma OriginsDiffer(rules: Rules, z: Zone, player: u64, intent: Intent, a: Place, b: Place, id: u64)
    requires ZoneInvariant(z) && Fresh(z, intent) && Handled(rules, z, player, intent).0 == Some(Success)
    requires IdAt(Handled(rules, z, player, intent).1, a, id) && IdAt(Handled(rules, z, player, intent).1, b, id)
    requires Origin(z, player, intent, a) == Origin(z, player, intent, b)
    ensures a == b
  {
  }

  /** A refused intent changes nothing, except that a refused drop uses up a bag number. */
  lemma RefusalChangesNothing(rules: Rules, z: Zone, player: u64, intent: Intent)
    requires AllSound(z) && Handled(rules, z, player, intent).0 != Some(Success)
    ensures var after := Handled(rules, z, player, intent).1;
            after == z || (intent.Drop? && after == z.(nextBagId := Bumped(z.nextBagId)))
  {
    if player in z.inventories {
      var inv := z.inventories[player];
      assert z.inventories[player := inv] == z.inventories;
      match intent {
        case Loot(bagId, _, _, _, _) =>
          if bagId in z.bags {
            assert z.bags[bagId := z.bags[bagId]] == z.bags;
          }
        case Merge(source, _, _, _) =>
          if source in inv.items {
            assert (inv.items - {source})[source := inv.items[source]] == inv.items;
          }
        case Drop(item, _) =>
          if item in inv.items {
            assert (inv.items - {item})[item := inv.items[item]] == inv.items;
          }
        case _ =>
      }
    }
  }

  lemma IntentKeepsUnique(rules: Rules, z: Zone, player: u64, intent: Intent)
    requires ZoneInvariant(z) && Fresh(z, intent)
    ensures Unique(Handled(rules, z, player, intent).1)
  {
    var after := Handled(rules, z, player, intent).1;
    if Handled(rules, z, player, intent).0 == Some(Success) {
      forall a, b, id | IdAt(after, a, id) && IdAt(after, b, id)
        ensures a == b
      {
        ItemsComeFromOrigins(rules, z, player, intent, a, id);
        ItemsComeFromOrigins(rules, z, player, intent, b, id);
        if Origin(z, player, intent, a) == Origin(z, player, intent, b) {
          OriginsDiffer(rules, z, player, intent, a, b, id);
        }
      }
    } else {
      RefusalChangesNothing(rules, z, player, intent);
      SamePlaces(z, after);
    }
  }

  lemma SamePlaces(z: Zone, after: Zone)
    requires Unique(z) && after.inventories == z.inventories && after.bags == z.bags
    ensures Unique(after)
  {
    forall a, b, id | IdAt(after, a, id) && IdAt(after, b, id)
      ensures a == b
    {
      assert IdAt(z, a, id) && IdAt(z, b, id);
    }
  }

  lemma IntentKeepsNumbers(rules: Rules, z: Zone, player: u64, intent: Intent)
    requires AllSound(z) && BagsNumbered(z)
    ensures BagsNumbered(Handled(rules, z, player, intent).1)
  {
  }

  lemma IntentKeepsInvariant(rules: Rules, z: Zone, player: u64, intent: Intent)
    requires ZoneInvariant(z) && Fresh(z, intent)
    ensures ZoneInvariant(Handled(rules, z, player, intent).1)
  {
    IntentKeepsSound(rules, z, player, intent);
    IntentKeepsUnique(rules, z, player, intent);
    IntentKeepsNumbers(rules, z, player, intent);
  }

  // ----- Decay -----

  function ExpiredBags(z: Zone): map<u64, Bag> {
    map b | b in z.bags && Expired(z.bags[b], z.tick) :: z.bags[b]
  }

  /** Decay takes out of the ledger exactly what the expired bags held. */
  lemma DecayBalances(z: Zone, definition: u32)
    ensures Ledger(Decayed(z), definition) + Total(ExpiredBags(z), Bagged(definition)) == Ledger(z, definition)
  {
    assert z.bags == Decayed(z).bags + ExpiredBags(z);
    TotalParts(z.bags, Decayed(z).bags, ExpiredBags(z), Bagged(definition));
  }

  lemma DecayKeepsInvariant(z: Zone)
    requires ZoneInvariant(z)
    ensures ZoneInvariant(Decayed(z))
  {
    forall a, b, id | IdAt(Decayed(z), a, id) && IdAt(Decayed(z), b, id)
      ensures a == b
    {
      assert IdAt(z, a, id) && IdAt(z, b, id);
    }
  }

  // ----- Characters that come and go -----

  function Joined(z: Zone, player: u64, inv: Inventory): Zone { z.(inventories := z.inventories[player := inv]) }

  function Parted(z: Zone, player: u64): Zone { z.(inventories := z.inventories - {player}) }

  /** A character brings exactly what it carries, and takes exactly that away. */
  lemma JoinBalances(z: Zone, player: u64, inv: Inventory, definition: u32)
    requires player !in z.inventories
    ensures Ledger(Joined(z, player, inv), definition) == Ledger(z, definition) + Carried(definition)(inv)
    ensures Parted(Joined(z, player, inv), player) == z
  {
    TotalPut(z.inventories, Carried(definition), player, inv);
  }

  lemma PartBalances(z: Zone, player: u64, definition: u32)
    requires player in z.inventories
    ensures Ledger(Parted(z, player), definition) + Carried(definition)(z.inventories[player]) == Ledger(z, definition)
  {
    TotalWithout(z.inventories, Carried(definition), player);
  }

  /** A character whose items are not in the zone yet keeps the zone's invariant. */
  lemma JoinKeepsInvariant(z: Zone, player: u64, inv: Inventory)
    requires ZoneInvariant(z) && Sound(inv) && player !in z.inventories
    requires forall k :: k in inv.items ==> Unused(z, k)
    ensures ZoneInvariant(Joined(z, player, inv))
  {
    var after := Joined(z, player, inv);
    forall place, id | IdAt(after, place, id)
      ensures if place.Held? && place.player == player then id == place.key && Unused(z, id) else IdAt(z, place, id)
    {
    }
  }

  lemma PartKeepsInvariant(z: Zone, player: u64)
    requires ZoneInvariant(z)
    ensures ZoneInvariant(Parted(z, player))
  {
    forall place, id | IdAt(Parted(z, player), place, id)
      ensures IdAt(z, place, id)
    {
    }
  }

  // ----- Runs -----

  datatype Queued = Queued(player: u64, intent: Intent)

  ghost function HandledAll(rules: Rules, z: Zone, queue: seq<Queued>): Zone
    requires AllSized(z)
    ensures AllSized(HandledAll(rules, z, queue))
  {
    if queue == [] then z
    else
      var before := HandledAll(rules, z, queue[..|queue| - 1]);
      var last := queue[|queue| - 1];
      HandledKeepsSized(rules, before, last.player, last.intent);
      Handled(rules, before, last.player, last.intent).1
  }

  /** One event: a player is told how an intent of theirs ended. */
  datatype Processed = Processed(player: u64, outcome: Outcome)

  /** The events of a queue: one for each intent of a player the zone knows, in order. */
  ghost function EventsOf(rules: Rules, z: Zone, queue: seq<Queued>): seq<Processed>
    requires AllSized(z)
  {
    if queue == [] then []
    else
      var earlier, last := queue[..|queue| - 1], queue[|queue| - 1];
      var outcome := Handled(rules, HandledAll(rules, z, earlier), last.player, last.intent).0;
      EventsOf(rules, z, earlier) + (if outcome.Some? then [Processed(last.player, outcome.value)] else [])
  }

  ghost predicate AllSized(z: Zone) {
    forall p :: p in z.inventories ==> z.inventories[p].grid.Sized()
  }

  lemma HandledKeepsSized(rules: Rules, z: Zone, player: u64, intent: Intent)
    requires AllSized(z)
    ensures AllSized(Handled(rules, z, player, intent).1)
  {
  }

  /** Every identifier of the queue is fresh when its turn comes. */
  ghost predicate AllFresh(rules: Rules, z: Zone, queue: seq<Queued>)
    requires AllSized(z)
  {
    forall i :: 0 <= i < |queue| ==> Fresh(HandledAll(rules, z, queue[..i]), queue[i].intent)
  }

  /** Over any queue of intents from any players the quantity of every definition is constant, and
      every item stays in one place. */
  lemma {:induction false} QueueConserves(rules: Rules, z: Zone, queue: seq<Queued>, definition: u32)
    requires ZoneInvariant(z) && AllFresh(rules, z, queue)
    ensures ZoneInvariant(HandledAll(rules, z, queue))
    ensures Ledger(HandledAll(rules, z, queue), definition) == Ledger(z, definition)
    decreases |queue|
  {
    if queue != [] {
      var earlier, last := queue[..|queue| - 1], queue[|queue| - 1];
      assert forall i :: 0 <= i < |earlier| ==> earlier[..i] == queue[..i] && earlier[i] == queue[i];
      QueueConserves(rules, z, earlier, definition);
      var before := HandledAll(rules, z, earlier);
      assert Fresh(before, last.intent);
      IntentBalances(rules, before, last.player, last.intent, definition);
      FreshLosesNothing(rules, before, last.player, last.intent, definition);
      IntentKeepsInvariant(rules, before, last.player, last.intent);
    }
  }

  /** One step of the zone: time passes, expired bags go, and the queue is handled. */
  ghost function Stepped(rules: Rules, z: Zone, queue: seq<Queued>): Zone
    requires AllSized(z) && z.tick < U64_MAX
  {
    HandledAll(rules, Decayed(z.(tick := z.tick + 1)), queue)
  }

  ghost predicate StepsTo(rules: Rules, z: Zone, queue: seq<Queued>, after: Zone) {
    && AllSized(z) && z.tick < U64_MAX
    && AllFresh(rules, Decayed(z.(tick := z.tick + 1)), queue)
    && after == Stepped(rules, z, queue)
  }

  /** What the next step lets decay. */
  ghost function DecaysNext(z: Zone, definition: u32): nat {
    Total(ExpiredBags(z.(tick := Bumped(z.tick))), Bagged(definition))
  }

  lemma StepBalances(rules: Rules, z: Zone, queue: seq<Queued>, after: Zone, definition: u32)
    requires ZoneInvariant(z) && StepsTo(rules, z, queue, after)
    ensures ZoneInvariant(after)
    ensures Ledger(after, definition) + DecaysNext(z, definition) == Ledger(z, definition)
  {
    var ticked := z.(tick := z.tick + 1);
    TickKeepsInvariant(z);
    DecayKeepsInvariant(ticked);
    DecayBalances(ticked, definition);
    QueueConserves(rules, Decayed(ticked), queue, definition);
    assert DecaysNext(z, definition) == Total(ExpiredBags(ticked), Bagged(definition));
  }

  lemma TickKeepsInvariant(z: Zone)
    requires ZoneInvariant(z) && z.tick < U64_MAX
    ensures ZoneInvariant(z.(tick := z.tick + 1))
    ensures forall definition: u32 :: Ledger(z.(tick := z.tick + 1), definition) == Ledger(z, definition)
  {
    SamePlaces(z, z.(tick := z.tick + 1));
  }

  /** What happens to a zone: a step, a step whose movement fails, a character that enters with items the
      zone does not hold, or one that leaves. */
  datatype ZoneEvent =
    | Ticked(queue: seq<Queued>)
    | Stalled
    | Entered(player: u64, inv: Inventory)
    | Left(player: u64)

  ghost predicate Enters(z: Zone, player: u64, inv: Inventory) {
    player !in z.inventories && Sound(inv) && forall k :: k in inv.items ==> Unused(z, k)
  }

  ghost predicate ZoneStep(rules: Rules, z: Zone, event: ZoneEvent, after: Zone) {
    match event
    case Ticked(queue) => StepsTo(rules, z, queue, after)
    case Stalled => z.tick < U64_MAX && after == z.(tick := z.tick + 1)
    case Entered(player, inv) => Enters(z, player, inv) && after == Joined(z, player, inv)
    case Left(player) => after == Parted(z, player)
  }

  /** What an event brings into the zone. */
  ghost function Brings(event: ZoneEvent, definition: u32): nat {
    if event.Entered? then Carried(definition)(event.inv) else 0
  }

  /** What an event takes out of the zone: decayed bags, or what a character carries away. */
  ghost function Takes(z: Zone, event: ZoneEvent, definition: u32): nat {
    match event
    case Ticked(_) => DecaysNext(z, definition)
    case Left(player) => if player in z.inventories then Carried(definition)(z.inventories[player]) else 0
    case _ => 0
  }

  lemma EventBalances(rules: Rules, z: Zone, event: ZoneEvent, after: Zone, definition: u32)
    requires ZoneInvariant(z) && ZoneStep(rules, z, event, after)
    ensures ZoneInvariant(after)
    ensures Ledger(after, definition) + Takes(z, event, definition) == Ledger(z, definition) + Brings(event, definition)
  {
    match event {
      case Ticked(queue) => StepBalances(rules, z, queue, after, definition);
      case Stalled => TickKeepsInvariant(z);
      case Entered(player, inv) =>
        JoinKeepsInvariant(z, player, inv);
        JoinBalances(z, player, inv, definition);
      case Left(player) => LeavingBalances(z, player, definition);
    }
  }

  lemma LeavingBalances(z: Zone, player: u64, definition: u32)
    requires ZoneInvariant(z)
    ensures ZoneInvariant(Parted(z, player))
    ensures Ledger(Parted(z, player), definition) + Takes(z, Left(player), definition) == Ledger(z, definition)
  {
    PartKeepsInvariant(z, player);
    if player in z.inventories {
      PartBalances(z, player, definition);
    } else {
      assert z.inventories - {player} == z.inventories;
    }
  }

  ghost predicate ZoneRun(rules: Rules, zones: seq<Zone>, events: seq<ZoneEvent>) {
    && |zones| == |events| + 1
    && forall i {:trigger events[i]} :: 0 <= i < |events| ==> ZoneStep(rules, zones[i], events[i], zones[i + 1])
  }

  lemma StepOfRun(rules: Rules, zones: seq<Zone>, events: seq<ZoneEvent>, i: nat)
    requires ZoneRun(rules, zones, events) && i < |events|
    ensures ZoneStep(rules, zones[i], events[i], zones[i + 1])
  {
  }

  /** What the first `n` events bring, and what they take. */
  ghost function Brought(events: seq<ZoneEvent>, definition: u32, n: nat): nat
    requires n <= |events|
  {
    if n == 0 then 0 else Brought(events, definition, n - 1) + Brings(events[n - 1], definition)
  }

  ghost function Taken(zones: seq<Zone>, events: seq<ZoneEvent>, definition: u32, n: nat): nat
    requires n <= |events| <= |zones|
  {
    if n == 0 then 0 else Taken(zones, events, definition, n - 1) + Takes(zones[n - 1], events[n - 1], definition)
  }

  /** Over any run of steps, characters that enter and characters that leave, the quantity of every
      definition changes only by what decays, what is brought in and what is carried away. */
  lemma {:induction false} RunBalances(
    rules: Rules, zones: seq<Zone>, events: seq<ZoneEvent>, definition: u32, n: nat)
    requires ZoneRun(rules, zones, events) && ZoneInvariant(zones[0]) && n <= |events|
    ensures ZoneInvariant(zones[n])
    ensures Ledger(zones[n], definition) + Taken(zones, events, definition, n)
            == Ledger(zones[0], definition) + Brought(events, definition, n)
  {
    RunKeepsInvariant(rules, zones, events, n);
    if n > 0 {
      RunBalances(rules, zones, events, definition, n - 1);
      NextEventBalances(rules, zones, events, definition, n - 1);
    }
  }

  lemma {:induction false} RunKeepsInvariant(rules: Rules, zones: seq<Zone>, events: seq<ZoneEvent>, n: nat)
    requires ZoneRun(rules, zones, events) && ZoneInvariant(zones[0]) && n <= |events|
    ensures ZoneInvariant(zones[n])
  {
    if n > 0 {
      RunKeepsInvariant(rules, zones, events, n - 1);
      NextEventBalances(rules, zones, events, 0, n - 1);
    }
  }

  lemma NextEventBalances(rules: Rules, zones: seq<Zone>, events: seq<ZoneEvent>, definition: u32, i: nat)
    requires ZoneRun(rules, zones, events) && i < |events| && ZoneInvariant(zones[i])
    ensures ZoneInvariant(zones[i + 1])
    ensures Ledger(zones[i + 1], definition) + Takes(zones[i], events[i], definition)
            == Ledger(zones[i], definition) + Brings(events[i], definition)
  {
    StepOfRun(rules, zones, events, i);
    EventBalances(rules, zones[i], events[i], zones[i + 1], definition);
  }

  // ----- The zone runtime -----

  class ZoneInventory {
    var inventories: map<u64, Inventory>
    var bags: map<u64, Bag>
    var nextBagId: u64
    var tick: u64
    var queue: seq<Queued>

    function View(): Zone
      reads this
    {
      Zone(inventories, bags, nextBagId, tick)
    }

    constructor ()
      ensures View() == Zone(map[], map[], 0, 0) && queue == []
    {
      inventories, bags, nextBagId, tick, queue := map[], map[], 0, 0, [];
    }

    /** A character enters with its inventory at a legal position, unless it is already there. */
    method Spawn(player: u64, legal: bool, inv: Inventory) returns (ok: bool)
      modifies this`inventories
      ensures ok <==> legal && player !in old(inventories)
      ensures View() == if ok then Joined(old(View()), player, inv) else old(View())
    {
      if !legal || player in inventories {
        return false;
      }
      inventories := inventories[player := inv];
      ok := true;
    }

    /** A known character leaves and hands its inventory over. */
    method Despawn(player: u64) returns (r: Option<Inventory>)
      modifies this`inventories
      ensures r == if player in old(inventories) then Some(old(inventories)[player]) else None
      ensures View() == Parted(old(View()), player)
    {
      if player !in inventories {
        assert inventories - {player} == inventories;
        return None;
      }
      r := Some(inventories[player]);
      inventories := inventories - {player};
    }

    method Accept(player: u64, intent: Intent)
      modifies this`queue
      ensures queue == old(queue) + [Queued(player, intent)]
    {
      queue := queue + [Queued(player, intent)];
    }

    /** Finds the expired bags, then removes them. */
    method TickDecay() returns (expired: set<u64>)
      modifies this`bags
      ensures View() == Decayed(old(View())) && expired == ExpiredBags(old(View())).Keys
    {
      expired := {};
      var left := bags.Keys;
      while left != {}
        invariant left <= bags.Keys
        invariant forall b :: b in expired <==> b in bags && b !in left && Expired(bags[b], tick)
        decreases |left|
      {
        var b :| b in left;
        left := left - {b};
        if Max(tick - bags[b].spawnedAt, 0) >= bags[b].decayAfter {
          expired := expired + {b};
        }
      }
      ghost var before := View();
      bags := bags - expired;
      assert bags == Decayed(before).bags && expired == ExpiredBags(before).Keys;
    }

    method HandleLoot(rules: Rules, player: u64, intent: Intent) returns (outcome: Outcome)
      requires AllSized(View()) && intent.Loot? && player in inventories
      modifies this`inventories, this`bags
      ensures (Some(outcome), View()) == Handled(rules, old(View()), player, intent)
    {
      if intent.bag !in bags {
        return BagNotFound;
      }
      var inv, bag := inventories[player], bags[intent.bag];
      var (result, inv', bag') := Looted(rules, player, inv, bag, intent.bag, intent);
      inventories := inventories[player := inv'];
      bags := bags[intent.bag := bag'];
      outcome := result;
    }

    method HandleDrop(player: u64, intent: Intent, ghost rules: Rules) returns (outcome: Outcome)
      requires AllSized(View()) && intent.Drop? && player in inventories
      modifies this`inventories, this`bags, this`nextBagId
      ensures (Some(outcome), View()) == Handled(rules, old(View()), player, intent)
    {
      var inv := inventories[player];
      if intent.item in inv.items {
        nextBagId := Bumped(nextBagId);
      }
      var (result, inv', bag) := DroppedItem(player, inv, tick, intent);
      inventories := inventories[player := inv'];
      if bag.Some? {
        bags := bags[nextBagId := bag.value];
      }
      outcome := result;
    }

    method HandleOne(rules: Rules, player: u64, intent: Intent) returns (outcome: Option<Outcome>)
      requires AllSized(View())
      modifies this`inventories, this`bags, this`nextBagId
      ensures (outcome, View()) == Handled(rules, old(View()), player, intent)
    {
      if player !in inventories {
        return None;
      }
      var inv := inventories[player];
      var result: (Outcome, Inventory);
      match intent {
        case Loot(_, _, _, _, _) =>
          var looted := HandleLoot(rules, player, intent);
          return Some(looted);
        case Drop(_, _) =>
          var dropped := HandleDrop(player, intent, rules);
          return Some(dropped);
        case MoveOrRotate(_, _, _, _) => result := MovedItem(inv, intent);
        case Merge(_, _, _, _) => result := MergedItems(inv, intent);
        case Split(_, _, _, _, _, _) => result := SplitItem(rules, inv, intent);
        case Equip(_, _, _) => result := EquippedItem(rules, inv, intent);
      }
      inventories := inventories[player := result.1];
      outcome := Some(result.0);
    }

    /** Lets bags decay, then handles the queued intents in order and empties the queue. */
    method ProcessInventoryIntents(rules: Rules) returns (events: seq<Processed>)
      requires AllSized(View())
      modifies this
      ensures events == EventsOf(rules, Decayed(old(View())), old(queue))
      ensures View() == HandledAll(rules, Decayed(old(View())), old(queue)) && queue == []
    {
      var expired := TickDecay();
      ghost var decayed := View();
      var intents := queue;
      queue := [];
      events := [];
      for i := 0 to |intents|
        invariant View() == HandledAll(rules, decayed, intents[..i]) && AllSized(View()) && queue == []
        invariant events == EventsOf(rules, decayed, intents[..i])
      {
        var outcome := HandleOne(rules, intents[i].player, intents[i].intent);
        assert intents[..i + 1][..i] == intents[..i];
        if outcome.Some? {
          events := events + [Processed(intents[i].player, outcome.value)];
        }
      }
      assert intents[..|intents|] == intents;
    }

    /** One step: the tick advances, unless it cannot, the characters move, and the queue is processed.
        When the movement tick fails, the tick has advanced and the queue waits. */
    method Step(rules: Rules, moved: bool) returns (ok: bool)
      requires AllSized(View())
      modifies this
      ensures ok <==> old(tick) < U64_MAX && moved
      ensures ok ==> View() == Stepped(rules, old(View()), old(queue)) && queue == []
      ensures !ok ==> View() == old(View()).(tick := if old(tick) < U64_MAX then old(tick) + 1 else old(tick))
      ensures !ok ==> queue == old(queue)
    {
      if tick == U64_MAX {
        return false;
      }
      tick := tick + 1;
      if !moved {
        return false;
      }
      var events := ProcessInventoryIntents(rules);
      ok := true;
    }
  }
}
