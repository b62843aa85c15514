/** When an inventory intent loses quantity: the exact condition on the zone and the intent, and an input
    for each way (crates/simulation/src/zone.rs, crates/simulation/src/loot.rs). */
module LedgerLosses {
  import opened MachineInts
  import opened MapTotals
  import opened InventoryGrids
  import opened InventoryLedger

  /** The item of a definition fits into the grid where the intent wants it. */
  predicate HasRoom(rules: Rules, g: GridView, definition: u32, slot: Slot, rotation: Rotation)
    requires g.Sized()
  {
    var dimensions := rules.dimensions(definition);
    dimensions.Some? && CanPlace(g, Placement(slot, rotation, dimensions.value), None)
  }

  /** The guards a loot passes. */
  predicate LootPasses(rules: Rules, z: Zone, player: u64, intent: Intent)
    requires intent.Loot? && player in z.inventories && z.inventories[player].grid.Sized()
  {
    && intent.bag in z.bags && rules.inRange(player, intent.bag)
    && var found := PositionOf(z.bags[intent.bag].items, intent.item);
       && found.Some?
       && var item := z.bags[intent.bag].items[found.value];
          && item.revision == intent.revision
          && HasRoom(rules, z.inventories[player].grid, item.definition, intent.slot, intent.rotation)
  }

  /** The guards a split passes. */
  predicate SplitPasses(rules: Rules, inv: Inventory, intent: Intent)
    requires intent.Split? && inv.grid.Sized()
  {
    && intent.source in inv.items
    && var source := inv.items[intent.source];
       && source.id == intent.source && source.revision == intent.revision
       && 0 < intent.quantity < source.quantity
       && HasRoom(rules, inv.grid, source.definition, intent.slot, intent.rotation)
  }

  /** The guards a drop passes. */
  predicate DropPasses(inv: Inventory, intent: Intent)
    requires intent.Drop?
  {
    && intent.item in inv.items
    && inv.items[intent.item].id == intent.item && inv.items[intent.item].revision == intent.revision
  }

  predicate Holds(inv: Inventory, id: u64) { id in inv.items && inv.items[id].quantity > 0 }

  predicate BagHolds(z: Zone, bag: u64) {
    bag in z.bags && exists i :: 0 <= i < |z.bags[bag].items| && z.bags[bag].items[i].quantity > 0
  }

  /** An intent that passes its guards stores under a key that holds something already: a looted item or
      the new half of a split under an id the player holds, or a dropped bag under the number of a bag. */
  predicate Overwrites(rules: Rules, z: Zone, player: u64, intent: Intent)
    requires AllSized(z)
  {
    && player in z.inventories
    && var inv := z.inventories[player];
       match intent
       case Loot(_, item, _, _, _) => LootPasses(rules, z, player, intent) && Holds(inv, item)
       case Split(_, _, _, _, _, newId) => SplitPasses(rules, inv, intent) && Holds(inv, newId)
       case Drop(_, _) => DropPasses(inv, intent) && BagHolds(z, Bumped(z.nextBagId))
       case _ => false
  }

  lemma AmountOfOwn(m: map<u64, Item>, key: u64)
    ensures (exists definition: u32 :: Overwritten(m, key, AmountOf(definition)) > 0) <==>
              key in m && m[key].quantity > 0
  {
    if key in m && m[key].quantity > 0 {
      assert Overwritten(m, key, AmountOf(m[key].definition)) > 0;
    }
  }

  lemma {:induction false} SumPositiveIff(items: seq<Item>)
    ensures (exists definition: u32 :: SumItems(items, AmountOf(definition)) > 0)
            <==> exists i :: 0 <= i < |items| && items[i].quantity > 0
  {
    if items != [] {
      var earlier, last := items[..|items| - 1], items[|items| - 1];
      SumPositiveIff(earlier);
      if definition: u32 :| SumItems(items, AmountOf(definition)) > 0 {
        if last.quantity == 0 {
          assert SumItems(earlier, AmountOf(definition)) > 0;
          var i :| 0 <= i < |earlier| && earlier[i].quantity > 0;
          assert items[i].quantity > 0;
        }
      }
      if i :| 0 <= i < |items| && items[i].quantity > 0 {
        if i == |items| - 1 {
          assert SumItems(items, AmountOf(last.definition)) > 0;
        } else {
          assert earlier[i].quantity > 0;
          var definition: u32 :| SumItems(earlier, AmountOf(definition)) > 0;
          assert SumItems(items, AmountOf(definition)) > 0;
        }
      }
    }
  }

  /** Something of some definition is lost. */
  ghost predicate Loses(rules: Rules, z: Zone, player: u64, intent: Intent)
    requires AllSized(z)
  {
    exists definition: u32 :: Ledger(Handled(rules, z, player, intent).1, definition) < Ledger(z, definition)
  }

  lemma LosesIffLost(rules: Rules, z: Zone, player: u64, intent: Intent)
    requires AllSound(z)
    ensures Loses(rules, z, player, intent) <==>
              exists definition: u32 :: Lost(rules, z, player, intent, definition) > 0
  {
    forall definition: u32
      ensures Ledger(Handled(rules, z, player, intent).1, definition) < Ledger(z, definition)
              <==> Lost(rules, z, player, intent, definition) > 0
    {
      IntentBalances(rules, z, player, intent, definition);
    }
  }

  lemma LootLosesIff(rules: Rules, z: Zone, player: u64, intent: Intent)
    requires AllSound(z) && intent.Loot? && player in z.inventories
    ensures (exists definition: u32 :: Lost(rules, z, player, intent, definition) > 0) <==>
              Overwrites(rules, z, player, intent)
  {
    var items := z.inventories[player].items;
    AmountOfOwn(items, intent.item);
    if LootPasses(rules, z, player, intent) {
      assert forall definition: u32 ::
          Lost(rules, z, player, intent, definition) == Overwritten(items, intent.item, AmountOf(definition));
    }
  }

  lemma SplitLosesIff(rules: Rules, z: Zone, player: u64, intent: Intent)
    requires AllSound(z) && intent.Split? && player in z.inventories
    ensures (exists definition: u32 :: Lost(rules, z, player, intent, definition) > 0) <==>
              Overwrites(rules, z, player, intent)
  {
    var inv := z.inventories[player];
    if SplitPasses(rules, inv, intent) {
      var reduced := Reduced(inv, intent);
      AmountOfOwn(reduced, intent.newId);
      assert forall definition: u32 ::
          Lost(rules, z, player, intent, definition) == Overwritten(reduced, intent.newId, AmountOf(definition));
    }
  }

  lemma DropLosesIff(rules: Rules, z: Zone, player: u64, intent: Intent)
    requires AllSound(z) && intent.Drop? && player in z.inventories
    ensures (exists definition: u32 :: Lost(rules, z, player, intent, definition) > 0) <==>
              Overwrites(rules, z, player, intent)
  {
    var inv, bag := z.inventories[player], Bumped(z.nextBagId);
    if DropPasses(inv, intent) {
      assert forall definition: u32 ::
               Lost(rules, z, player, intent, definition) == Overwritten(z.bags, bag, Bagged(definition));
      if bag in z.bags {
        SumPositiveIff(z.bags[bag].items);
        assert forall definition: u32 ::
            Overwritten(z.bags, bag, Bagged(definition)) == SumItems(z.bags[bag].items, AmountOf(definition));
      }
    }
  }

  /** An intent loses quantity exactly when it passes its guards and stores over something. */
  lemma LosesIffOverwrites(rules: Rules, z: Zone, player: u64, intent: Intent)
    requires AllSound(z)
    ensures Loses(rules, z, player, intent) <==> Overwrites(rules, z, player, intent)
  {
    LosesIffLost(rules, z, player, intent);
    if player in z.inventories {
      match intent {
        case Loot(_, _, _, _, _) => LootLosesIff(rules, z, player, intent);
        case Split(_, _, _, _, _, _) => SplitLosesIff(rules, z, player, intent);
        case Drop(_, _) => DropLosesIff(rules, z, player, intent);
        case _ =>
      }
    }
  }

  // ----- An input for each way to lose -----

  function AnyRules(): Rules {
    Rules(definition => Some(Dimensions(1, 1)), definition => None, (player, bag) => true)
  }

  function Stack(id: u64, quantity: u32): Item { Item(id, 7, OfWorld, 0, quantity, 0) }

  /** One player with a free grid of one cell. */
  function Holding(items: map<u64, Item>): Inventory {
    Inventory(GridView(1, 1, [None], map[]), map[], items)
  }

  function OnePlayer(items: map<u64, Item>, bags: map<u64, Bag>, nextBagId: u64): Zone {
    Zone(map[1 := Holding(items)], bags, nextBagId, 0)
  }

  lemma HoldingIsSound(items: map<u64, Item>)
    requires forall k :: k in items ==> items[k].id == k
    ensures Sound(Holding(items))
    ensures HasRoom(AnyRules(), Holding(items).grid, 7, Slot(0, 0), Normal)
  {
    EmptyGridAgrees(Holding(items).grid);
  }

  /** A split whose new id the player already holds loses the stack that was there. */
  lemma SplitOntoHeldIdLoses()
    ensures var z := OnePlayer(map[5 := Stack(5, 10), 6 := Stack(6, 3)], map[], 0);
            AllSound(z) && Loses(AnyRules(), z, 1, Split(5, 0, 4, Slot(0, 0), Normal, 6))
  {
    var items: map<u64, Item> := map[5 := Stack(5, 10), 6 := Stack(6, 3)];
    HoldingIsSound(items);
    LosesIffOverwrites(AnyRules(), OnePlayer(items, map[], 0), 1, Split(5, 0, 4, Slot(0, 0), Normal, 6));
  }

  /** Once the bag counter has reached its end, a drop replaces the bag dropped before. */
  lemma DropOntoUsedBagLoses()
    ensures var z :=
              OnePlayer(map[5 := Stack(5, 1)], map[U64_MAX := Bag(1, 0, BAG_DECAY_TICKS, [Stack(6, 3)])], U64_MAX);
            AllSound(z) && Loses(AnyRules(), z, 1, Drop(5, 0))
  {
    var items: map<u64, Item> := map[5 := Stack(5, 1)];
    var bags: map<u64, Bag> := map[U64_MAX := Bag(1, 0, BAG_DECAY_TICKS, [Stack(6, 3)])];
    HoldingIsSound(items);
    var z := OnePlayer(items, bags, U64_MAX);
    assert z.bags[U64_MAX].items[0].quantity > 0;
    LosesIffOverwrites(AnyRules(), z, 1, Drop(5, 0));
  }

  /** A loot of an id the player already holds loses the stack that was there. */
  lemma LootOntoHeldIdLoses()
    ensures var z := OnePlayer(map[5 := Stack(5, 2)], map[9 := Bag(1, 0, BAG_DECAY_TICKS, [Stack(5, 1)])], 9);
            AllSound(z) && Loses(AnyRules(), z, 1, Loot(9, 5, 0, Slot(0, 0), Normal))
  {
    var items: map<u64, Item> := map[5 := Stack(5, 2)];
    var bags: map<u64, Bag> := map[9 := Bag(1, 0, BAG_DECAY_TICKS, [Stack(5, 1)])];
    HoldingIsSound(items);
    LosesIffOverwrites(AnyRules(), OnePlayer(items, bags, 9), 1, Loot(9, 5, 0, Slot(0, 0), Normal));
  }
}
