/** What inserting, splitting, dropping and depositing do to a container's items, told item by item
    (crates/domain/src/containers.rs). */
module ContainerEffects {
  import opened MachineInts
  import opened Containers
  import opened FreeSlots
  import opened SlotSearch
  import opened ContainerPacking
  import opened ContainerSorting

  // ----- Merging -----

  /** The stack is of the definition and not full. */
  predicate TakesMore(stack: StoredItem, definition: u32) {
    stack.definition == definition && stack.quantity < stack.maxStack
  }

  /** The stacks with a quantity of one definition merged in: only quantities change, and only of stacks
      that were not full; none passes its limit; and a stack takes nothing while one before it is not full. */
  ghost predicate FillsInOrder(items: seq<StoredItem>, definition: u32, stacks: seq<StoredItem>) {
    && |stacks| == |items|
    && (forall i :: 0 <= i < |items| ==>
          if TakesMore(items[i], definition)
          then stacks[i] == items[i].(quantity := stacks[i].quantity)
               && items[i].quantity <= stacks[i].quantity <= items[i].maxStack
          else stacks[i] == items[i])
    && (forall i, j :: 0 <= i < j < |items| && stacks[j] != items[j] ==> !TakesMore(stacks[i], definition))
  }

  /** No stack of the definition has room left. */
  predicate AllFull(stacks: seq<StoredItem>, definition: u32) {
    forall i :: 0 <= i < |stacks| ==> !TakesMore(stacks[i], definition)
  }

  /** The stack at `k` was not full and took the last of the quantity. */
  predicate TookLast(items: seq<StoredItem>, definition: u32, stacks: seq<StoredItem>, k: nat) {
    && k < |items| == |stacks| && TakesMore(items[k], definition)
    && (forall i :: 0 <= i < k ==> !TakesMore(stacks[i], definition))
    && (forall i :: k < i < |items| ==> stacks[i] == items[i])
  }

  /** A quantity is merged in order until a stack takes the last of it or none has room, and it is all
      accounted for. */
  ghost predicate MergedInOrder(items: seq<StoredItem>, definition: u32, quantity: u32,
                                stacks: seq<StoredItem>, left: u32, taker: Option<StoredItem>)
  {
    && FillsInOrder(items, definition, stacks)
    && Quantity(stacks, definition) + left == Quantity(items, definition) + quantity
    && match taker
       case None => AllFull(stacks, definition)
       case Some(stack) => left == 0 && exists k: nat :: TookLast(items, definition, stacks, k) && stacks[k] == stack
  }

  lemma ToppedUp(stack: StoredItem, definition: u32, quantity: u32)
    ensures var (after, left) := Topped(stack, definition, quantity);
            if TakesMore(stack, definition)
            then && after == stack.(quantity := after.quantity) && stack.quantity <= after.quantity <= stack.maxStack
                 && (left > 0 ==> after.quantity == stack.maxStack)
                 && (quantity == 0 ==> after == stack)
            else after == stack && left == quantity
  {
  }

  lemma OrderAppended(items: seq<StoredItem>, definition: u32, stacks: seq<StoredItem>, last: StoredItem,
                      after: StoredItem)
    requires FillsInOrder(items, definition, stacks)
    requires after == last || (AllFull(stacks, definition) && TakesMore(last, definition)
                               && after == last.(quantity := after.quantity)
                               && last.quantity <= after.quantity <= last.maxStack)
    ensures FillsInOrder(items + [last], definition, stacks + [after])
  {
  }

  lemma AlreadyTaken(
    items: seq<StoredItem>, definition: u32, quantity: u32, stacks: seq<StoredItem>, taker: StoredItem,
    last: StoredItem)
    requires MergedInOrder(items, definition, quantity, stacks, 0, Some(taker))
    ensures MergedInOrder(items + [last], definition, quantity, stacks + [last], 0, Some(taker))
  {
    OrderAppended(items, definition, stacks, last, last);
    QuantityAppended(stacks, last, definition);
    QuantityAppended(items, last, definition);
    var k: nat :| TookLast(items, definition, stacks, k) && stacks[k] == taker;
    assert TookLast(items + [last], definition, stacks + [last], k);
  }

  lemma OneMoreStack(
    items: seq<StoredItem>, definition: u32, quantity: u32, stacks: seq<StoredItem>, left: u32, last: StoredItem)
    requires MergedInOrder(items, definition, quantity, stacks, left, None)
    ensures var (after, rest) := Topped(last, definition, left);
            MergedInOrder(items + [last], definition, quantity, stacks + [after], rest,
                          if rest == 0 && TakesMore(last, definition) then Some(after) else None)
  {
    var (after, rest) := Topped(last, definition, left);
    ToppedUp(last, definition, left);
    OrderAppended(items, definition, stacks, last, after);
    QuantityAppended(stacks, after, definition);
    QuantityAppended(items, last, definition);
    if rest == 0 && TakesMore(last, definition) {
      assert TookLast(items + [last], definition, stacks + [after], |items|);
    }
  }

  lemma {:induction false} MergesInOrder(items: seq<StoredItem>, definition: u32, quantity: u32)
    ensures var (stacks, left, taker) := Merged(items, definition, quantity);
            MergedInOrder(items, definition, quantity, stacks, left, taker)
  {
    if items != [] {
      var n := |items| - 1;
      var (earlier, left, taker) := Merged(items[..n], definition, quantity);
      MergesInOrder(items[..n], definition, quantity);
      assert items == items[..n] + [items[n]];
      if taker.Some? {
        AlreadyTaken(items[..n], definition, quantity, earlier, taker.value, items[n]);
      } else {
        OneMoreStack(items[..n], definition, quantity, earlier, left, items[n]);
      }
    }
  }

  // ----- Quick insert -----

  /** What is merged of an item: nothing of one that does not stack. */
  ghost predicate Absorbs(c: Container, item: StoredItem, stacks: seq<StoredItem>, left: u32, taker: Option<StoredItem>)
  {
    if item.maxStack > 1 then MergedInOrder(c.items, item.definition, item.quantity, stacks, left, taker)
    else stacks == c.items && left == item.quantity && taker == None
  }

  /** How an insert ends once its part is merged: with the stack that took the last of it, or with the rest
      placed last at the first free spot; a container without a grid or a free spot refuses the rest, and
      keeps the merged part. */
  ghost predicate RestSettled(c: Container, item: StoredItem, allowRotation: bool, stacks: seq<StoredItem>, left: u32,
                              taker: Option<StoredItem>, r: Result<StoredItem, PackingError>, after: Container)
  {
    match taker
    case Some(stack) => r == Ok(stack) && after == c.(items := stacks)
    case None =>
      if !c.content.Grid? then r == Err(NotAGrid) && after == c.(items := stacks)
      else
        match FreeSlot(c.content.columns, c.content.rows, stacks, item.width, item.height, allowRotation)
        case None => r == Err(NoSpace) && after == c.(items := stacks)
        case Some(spot) =>
          && r == Ok(item.(quantity := left, x := spot.x, y := spot.y, rotated := spot.rotated))
          && after == c.(items := stacks + [r.value])
  }

  lemma AbsorbsInOrder(c: Container, item: StoredItem)
    ensures var (stacks, left, taker) := MergedInto(c, item);
            Absorbs(c, item, stacks, left, taker)
  {
    if item.maxStack > 1 {
      MergesInOrder(c.items, item.definition, item.quantity);
    }
  }

  lemma RestIsSettled(c: Container, item: StoredItem, allowRotation: bool)
    requires Admits(c, item).None?
    ensures var (stacks, left, taker) := MergedInto(c, item);
            var (r, after) := QuickInserted(c, item, allowRotation);
            RestSettled(c, item, allowRotation, stacks, left, taker, r, after)
  {
  }

  /** A quick insert refuses what the container does not admit; otherwise it merges what it can, stack by
      stack, and settles the rest. */
  lemma QuickInsertEffect(c: Container, item: StoredItem, allowRotation: bool)
    ensures var (r, after) := QuickInserted(c, item, allowRotation);
            if item.category !in c.allowed then r == Err(CategoryNotAllowed) && after == c
            else if item.category == Hazardous && Fireproof !in c.affixes then r == Err(BurnsContainer) && after == c
            else
              exists stacks, left, taker ::
                Absorbs(c, item, stacks, left, taker)
                  && RestSettled(c, item, allowRotation, stacks, left, taker, r, after)
  {
    if Admits(c, item).None? {
      var (stacks, left, taker) := MergedInto(c, item);
      AbsorbsInOrder(c, item);
      RestIsSettled(c, item, allowRotation);
      assert Absorbs(c, item, stacks, left, taker);
    }
  }

  // ----- Split and drop -----

  /** The first item of this id. */
  predicate FirstOf(items: seq<StoredItem>, id: u64, i: nat) {
    i < |items| && items[i].id == id && forall k :: 0 <= k < i ==> items[k].id != id
  }

  /** The stack at `i` has given a share to a new item, which is placed last and differs from it only in
      id, quantity and place. */
  predicate Shared(items: seq<StoredItem>, i: nat, amount: u32, newId: u64, share: StoredItem, after: seq<StoredItem>)
    requires i < |items|
  {
    && amount < items[i].quantity
    && after == items[i := items[i].(quantity := items[i].quantity - amount)] + [share]
    && share == items[i].(id := newId, quantity := amount, x := share.x, y := share.y, rotated := share.rotated)
  }

  lemma FirstOfUnique(items: seq<StoredItem>, id: u64, i: nat, j: nat)
    requires FirstOf(items, id, i) && FirstOf(items, id, j)
    ensures i == j
  {
  }

  /** A split answers for the first item of its id, shares it out, and otherwise changes nothing. */
  lemma SplitEffect(c: Container, source: u64, amount: u32, newId: u64, i: nat)
    requires c.content.Grid? && FirstOf(c.items, source, i)
    ensures var (r, after) := SplitOff(c, source, amount, newId);
            && (r == Err(ZeroSplit) <==> amount == 0)
            && (r == Err(SplitTooLarge) <==> 0 < amount && c.items[i].quantity <= amount)
            && (r.Err? ==> after == c && r.error in {ZeroSplit, SplitTooLarge, NoSpace})
            && (r.Ok? ==> Shared(c.items, i, amount, newId, r.value, after.items) && after == c.(items := after.items))
  {
    FirstOfUnique(c.items, source, i, IndexOf(c.items, source).value);
    SplitBalances(c, source, amount, newId, 0);
  }

  lemma SplitOfNothing(c: Container, source: u64, amount: u32, newId: u64)
    requires !c.content.Grid? || forall i: nat :: !FirstOf(c.items, source, i)
    ensures SplitOff(c, source, amount, newId) == (Err(if c.content.Grid? then ItemNotFound else NotAGrid), c)
  {
    if c.content.Grid? && IndexOf(c.items, source).Some? {
      assert FirstOf(c.items, source, IndexOf(c.items, source).value);
    }
  }

  /** A drop takes out the first item of its id, and leaves the others in their order. */
  lemma DropEffect(c: Container, id: u64)
    ensures var (r, after) := DroppedFrom(c, id);
            && (r.Ok? <==> exists i: nat :: FirstOf(c.items, id, i))
            && (r.Err? ==> r == Err(ItemNotFound) && after == c)
            && (forall i: nat :: FirstOf(c.items, id, i) ==>
                  && r == Ok(c.items[i]) && after == c.(items := after.items)
                  && |after.items| == |c.items| - 1
                  && forall k :: 0 <= k < |after.items| ==> after.items[k] == c.items[if k < i then k else k + 1])
  {
    var found := IndexOf(c.items, id);
    if found.Some? {
      assert FirstOf(c.items, id, found.value);
      forall i: nat | FirstOf(c.items, id, i)
        ensures i == found.value
      {
        FirstOfUnique(c.items, id, i, found.value);
      }
    }
  }

  // ----- Deposit -----

  /** Some item of the target is of the same definition. */
  predicate MatchedIn(item: StoredItem, target: seq<StoredItem>) {
    exists j :: 0 <= j < |target| && target[j].definition == item.definition
  }

  function OwnId(item: StoredItem, target: seq<StoredItem>): seq<u64> {
    if MatchedIn(item, target) then [item.id] else []
  }

  lemma Associative<T>(a: seq<T>, b: seq<T>, c: seq<T>)
    ensures a + (b + c) == (a + b) + c
  {
  }

  /** The ids of the matched items, in the order of the source. */
  function MatchedIds(source: seq<StoredItem>, target: seq<StoredItem>): seq<u64> {
    if source == [] then []
    else OwnId(source[0], target) + MatchedIds(source[1..], target)
  }

  lemma {:induction false} MatchedAppended(source: seq<StoredItem>, last: StoredItem, target: seq<StoredItem>)
    ensures MatchedIds(source + [last], target)
      == MatchedIds(source, target) + OwnId(last, target)
  {
    if source == [] {
      assert source + [last] == [last] && [last][1..] == [];
    } else {
      assert (source + [last])[1..] == source[1..] + [last];
      MatchedAppended(source[1..], last, target);
      Associative(OwnId(source[0], target), MatchedIds(source[1..], target), OwnId(last, target));
    }
  }

  /** A deposit goes through the ids of exactly the source's items whose definition the target holds when
      it begins, in the order of the source. */
  lemma {:induction false} DepositsMatching(source: seq<StoredItem>, target: seq<StoredItem>)
    ensures MatchingIds(source, target) == MatchedIds(source, target)
  {
    if source != [] {
      var n := |source| - 1;
      DepositsMatching(source[..n], target);
      MatchedAppended(source[..n], source[n], target);
      assert source == source[..n] + [source[n]];
    }
  }

  /** The item at `i` is inserted into the target and counted; when the insert fails it goes back to the end
      of the source. */
  ghost predicate MovesAt(d: Deposit, i: nat, next: Deposit)
    requires i < |d.source.items|
  {
    var item, rest := d.source.items[i], d.source.items[..i] + d.source.items[i + 1..];
    var (r, target) := QuickInserted(d.target, item, true);
    && next.target == target
    && if r.Ok? then next.source == d.source.(items := rest) && next.count == d.count + 1 && next.failed == None
       else && next.source == d.source.(items := rest + [item]) && next.count == d.count
            && next.failed == Some(item)
  }

  /** One move of a deposit is about the source's first item of the id; without one, or once an insert has
      failed, nothing is moved. */
  lemma DepositMoves(d: Deposit, id: u64)
    ensures var next := DepositOne(d, id);
            && (d.failed.Some? || (forall i: nat :: !FirstOf(d.source.items, id, i)) ==> next == d)
            && (d.failed.None? ==> forall i: nat :: FirstOf(d.source.items, id, i) ==> MovesAt(d, i, next))
  {
    var found := IndexOf(d.source.items, id);
    if found.Some? {
      assert FirstOf(d.source.items, id, found.value);
      forall i: nat | FirstOf(d.source.items, id, i)
        ensures i == found.value
      {
        FirstOfUnique(d.source.items, id, i, found.value);
      }
    }
  }
}
