/** When a deposit conserves quantities: the exact condition, and a deposit that does not
    (crates/domain/src/containers.rs). */
module DepositOutcome {
  import opened MachineInts
  import opened Containers
  import opened FreeSlots
  import opened SlotSearch
  import opened ContainerPacking
  import opened ContainerSorting

  // ----- When a container takes an item -----

  /** The search accepts some position for an item among these. */
  ghost predicate HasPlace(columns: u8, rows: u8, items: seq<StoredItem>, item: StoredItem) {
    exists spot :: Scans(columns, rows, item.width, item.height, true, spot)
      && Accepts(columns, rows, items, item.width, item.height, spot)
  }

  /** The container refuses an item: by its category, or because what is left of it after merging finds no
      place. */
  ghost predicate Refuses(c: Container, item: StoredItem) {
    || Admits(c, item).Some?
    || (MergedInto(c, item).2.None?
        && (!c.content.Grid? || !HasPlace(c.content.columns, c.content.rows, MergedInto(c, item).0, item)))
  }

  lemma RefusesIffErr(c: Container, item: StoredItem)
    ensures Refuses(c, item) <==> QuickInserted(c, item, true).0.Err?
  {
    if c.content.Grid? {
      PlaceFound(c.content.columns, c.content.rows, MergedInto(c, item).0, item);
    }
  }

  lemma PlaceFound(columns: u8, rows: u8, items: seq<StoredItem>, item: StoredItem)
    ensures HasPlace(columns, rows, items, item) <==>
              FreeSlot(columns, rows, items, item.width, item.height, true).Some?
  {
    SlotFromIsAccepted(columns, rows, items, item.width, item.height, true, 0, 0);
    if spot :| Scans(columns, rows, item.width, item.height, true, spot)
               && Accepts(columns, rows, items, item.width, item.height, spot) {
      SlotFromIsFirst(columns, rows, items, item.width, item.height, true, 0, 0, spot);
    }
  }

  /** In a packed grid, where no sum wraps, a place is a legal position. */
  lemma HasPlaceIffLegal(columns: u8, rows: u8, items: seq<StoredItem>, item: StoredItem)
    requires WellPacked(columns, rows, items) && SearchSafe(columns, rows, item.width, item.height, true)
    ensures HasPlace(columns, rows, items, item)
            <==> exists spot :: Scans(columns, rows, item.width, item.height, true, spot)
                   && Legal(columns, rows, items, item.width, item.height, spot)
  {
    PlaceFound(columns, rows, items, item);
    SearchExact(columns, rows, items, item.width, item.height, true);
  }

  /** Part of an item merges exactly when it is admitted and there is a stack of its definition with room. */
  lemma MergesSomeIff(c: Container, item: StoredItem)
    ensures MergedPart(c, item) > 0
            <==> && Admits(c, item).None? && item.maxStack > 1 && item.quantity > 0
                 && exists i :: 0 <= i < |c.items| && HasRoomFor(c.items[i], item.definition)
  {
    TakesSomeIff(c.items, item.definition, item.quantity);
  }

  predicate HasRoomFor(stack: StoredItem, definition: u32) {
    stack.definition == definition && stack.quantity < stack.maxStack
  }

  lemma {:induction false} TakesSomeIff(items: seq<StoredItem>, definition: u32, quantity: u32)
    ensures Merged(items, definition, quantity).1 < quantity
            <==> quantity > 0 && exists i :: 0 <= i < |items| && HasRoomFor(items[i], definition)
    ensures Merged(items, definition, quantity).2.Some? ==>
              exists i :: 0 <= i < |items| && HasRoomFor(items[i], definition)
  {
    if items != [] {
      var earlier, last := items[..|items| - 1], items[|items| - 1];
      TakesSomeIff(earlier, definition, quantity);
      assert HasRoomFor(last, definition) ==> HasRoomFor(items[|items| - 1], definition);
      if i :| 0 <= i < |earlier| && HasRoomFor(earlier[i], definition) {
        assert HasRoomFor(items[i], definition);
      }
      if i :| 0 <= i < |items| && HasRoomFor(items[i], definition) {
        assert i == |items| - 1 || HasRoomFor(earlier[i], definition);
      }
    }
  }

  // ----- The items a deposit comes to -----

  /** The items taken out one after the other by their ids, and the rest. */
  function Lifted(items: seq<StoredItem>, ids: seq<u64>): (seq<StoredItem>, seq<StoredItem>) {
    if ids == [] then ([], items)
    else
      var (moved, rest) := Lifted(items, ids[..|ids| - 1]);
      match IndexOf(rest, ids[|ids| - 1])
      case None => (moved, rest)
      case Some(i) => (moved + [rest[i]], rest[..i] + rest[i + 1..])
  }

  /** The target after it has taken items one after the other. */
  function Filled(target: Container, moved: seq<StoredItem>): Container {
    if moved == [] then target else QuickInserted(Filled(target, moved[..|moved| - 1]), moved[|moved| - 1], true).1
  }

  /** The target, filled with the items before it, refuses the `k`-th. */
  ghost predicate RefusedHere(target: Container, moved: seq<StoredItem>, k: nat)
    requires k < |moved|
  {
    Refuses(Filled(target, moved[..k]), moved[k])
  }

  ghost function Refusals(target: Container, moved: seq<StoredItem>): seq<bool> {
    seq(|moved|, k requires 0 <= k < |moved| => RefusedHere(target, moved, k))
  }

  function FirstTrue(bits: seq<bool>): (r: Option<nat>)
    ensures r.Some? ==> r.value < |bits| && bits[r.value]
    ensures forall j :: 0 <= j < (if r.Some? then r.value else |bits|) ==> !bits[j]
  {
    if bits == [] then None
    else
      var earlier := FirstTrue(bits[..|bits| - 1]);
      assert forall j :: 0 <= j < |bits| - 1 ==> bits[..|bits| - 1][j] == bits[j];
      if earlier.Some? then earlier else if bits[|bits| - 1] then Some(|bits| - 1) else None
  }

  /** The first item that the target refuses, given the ones before it. */
  ghost function RefusedAt(target: Container, moved: seq<StoredItem>): (r: Option<nat>)
    ensures r.Some? ==> r.value < |moved|
  {
    FirstTrue(Refusals(target, moved))
  }

  /** It is refused, and none before it is. */
  lemma RefusedAtIsFirst(target: Container, moved: seq<StoredItem>)
    ensures var r := RefusedAt(target, moved);
            && (r.Some? ==> RefusedHere(target, moved, r.value))
            && forall j :: 0 <= j < (if r.Some? then r.value else |moved|) ==> !RefusedHere(target, moved, j)
  {
    var bits := Refusals(target, moved);
    assert forall j :: 0 <= j < |moved| ==> bits[j] == RefusedHere(target, moved, j);
  }

  lemma RefusalsNext(target: Container, moved: seq<StoredItem>, item: StoredItem)
    ensures Refusals(target, moved + [item]) == Refusals(target, moved) + [Refuses(Filled(target, moved), item)]
  {
    var all := moved + [item];
    assert all[..|moved|] == moved;
    forall k | 0 <= k < |moved|
      ensures RefusedHere(target, all, k) == RefusedHere(target, moved, k)
    {
      assert all[..k] == moved[..k];
    }
  }

  lemma OneMoreMoved(target: Container, moved: seq<StoredItem>, item: StoredItem)
    ensures Filled(target, moved + [item]) == QuickInserted(Filled(target, moved), item, true).1
    ensures RefusedAt(target, moved + [item])
            == if RefusedAt(target, moved).Some? then RefusedAt(target, moved)
               else if Refuses(Filled(target, moved), item) then Some(|moved|) else None
  {
    assert (moved + [item])[..|moved|] == moved;
    RefusalsNext(target, moved, item);
    var bits := Refusals(target, moved);
    assert (bits + [Refuses(Filled(target, moved), item)])[..|bits|] == bits;
  }

  // ----- What a deposit does -----

  /** Until an item is refused, a deposit moves the items one by one. */
  ghost predicate MovesUpTo(d: Deposit, target: Container, moved: seq<StoredItem>, rest: seq<StoredItem>) {
    && (d.failed.None? <==> RefusedAt(target, moved).None?)
    && (d.failed.None? ==> d.source.items == rest && d.target == Filled(target, moved))
  }

  lemma {:induction false} DepositMoves(source: Container, target: Container, ids: seq<u64>)
    ensures var (moved, rest) := Lifted(source.items, ids);
            MovesUpTo(DepositAll(source, target, ids), target, moved, rest)
  {
    if ids != [] {
      var earlier, id := ids[..|ids| - 1], ids[|ids| - 1];
      DepositMoves(source, target, earlier);
      var (moved, rest) := Lifted(source.items, earlier);
      var i := IndexOf(rest, id);
      if i.Some? {
        MovesOneMore(DepositAll(source, target, earlier), target, moved, rest, id, i.value);
      }
    }
  }

  lemma MovesOneMore(d: Deposit, target: Container, moved: seq<StoredItem>, rest: seq<StoredItem>, id: u64, i: nat)
    requires MovesUpTo(d, target, moved, rest) && IndexOf(rest, id) == Some(i)
    ensures MovesUpTo(DepositOne(d, id), target, moved + [rest[i]], rest[..i] + rest[i + 1..])
  {
    OneMoreMoved(target, moved, rest[i]);
    if d.failed.None? {
      DepositedOne(d, id, i);
    }
  }

  lemma DepositedOne(d: Deposit, id: u64, i: nat)
    requires d.failed.None? && IndexOf(d.source.items, id) == Some(i)
    ensures var (after, item) := (DepositOne(d, id), d.source.items[i]);
            && (after.failed.Some? <==> Refuses(d.target, item))
            && (after.failed.None? ==> && after.target == QuickInserted(d.target, item, true).1
                                       && after.source.items == d.source.items[..i] + d.source.items[i + 1..])
  {
    RefusesIffErr(d.target, d.source.items[i]);
  }

  /** The part of the first refused item that merges before. */
  ghost function Surplus(target: Container, moved: seq<StoredItem>, definition: u32): nat {
    match RefusedAt(target, moved)
    case None => 0
    case Some(k) =>
      if moved[k].definition == definition then MergedPart(Filled(target, moved[..k]), moved[k]) else 0
  }

  /** That is what a deposit duplicates. */
  lemma {:induction false} DuplicatedIsSurplus(source: Container, target: Container, ids: seq<u64>, definition: u32)
    ensures TotalDuplicated(source, target, ids, definition) == Surplus(target, Lifted(source.items, ids).0, definition)
  {
    if ids != [] {
      var earlier, id := ids[..|ids| - 1], ids[|ids| - 1];
      DuplicatedIsSurplus(source, target, earlier, definition);
      DepositMoves(source, target, earlier);
      var (moved, rest) := Lifted(source.items, earlier);
      var i := IndexOf(rest, id);
      if i.Some? {
        SurplusOneMore(DepositAll(source, target, earlier), target, moved, rest, id, i.value, definition);
      }
    }
  }

  lemma SurplusOneMore(
    d: Deposit, target: Container, moved: seq<StoredItem>, rest: seq<StoredItem>, id: u64, i: nat, definition: u32)
    requires MovesUpTo(d, target, moved, rest) && IndexOf(rest, id) == Some(i)
    ensures Surplus(target, moved + [rest[i]], definition)
              == Surplus(target, moved, definition) + Duplicated(d, id, definition)
  {
    if d.failed.None? {
      SurplusOfNext(target, moved, rest[i], definition);
      DuplicatedIs(d, id, i, definition);
    } else {
      SurplusStays(target, moved, rest[i], definition);
    }
  }

  lemma SurplusOfNext(target: Container, moved: seq<StoredItem>, item: StoredItem, definition: u32)
    requires RefusedAt(target, moved).None?
    ensures Surplus(target, moved + [item], definition)
              == if Refuses(Filled(target, moved), item) && item.definition == definition
                 then MergedPart(Filled(target, moved), item) else 0
  {
    OneMoreMoved(target, moved, item);
    assert (moved + [item])[..|moved|] == moved;
  }

  lemma DuplicatedIs(d: Deposit, id: u64, i: nat, definition: u32)
    requires d.failed.None? && IndexOf(d.source.items, id) == Some(i)
    ensures var item := d.source.items[i];
            Duplicated(d, id, definition)
              == if Refuses(d.target, item) && item.definition == definition then MergedPart(d.target, item) else 0
  {
    RefusesIffErr(d.target, d.source.items[i]);
  }

  /** Nothing after a refused item changes the surplus. */
  lemma SurplusStays(target: Container, moved: seq<StoredItem>, item: StoredItem, definition: u32)
    requires RefusedAt(target, moved).Some?
    ensures Surplus(target, moved + [item], definition) == Surplus(target, moved, definition)
  {
    OneMoreMoved(target, moved, item);
    var k := RefusedAt(target, moved).value;
    assert (moved + [item])[..k] == moved[..k] && (moved + [item])[k] == moved[k];
  }

  // ----- The deposit of the code -----

  ghost predicate Conserves(source: Container, target: Container, ids: seq<u64>) {
    forall definition: u32 ::
      Held(DepositAll(source, target, ids), definition)
      == Quantity(source.items, definition) + Quantity(target.items, definition)
  }

  /** The `k`-th item is the first that the target refuses. */
  ghost predicate FirstRefused(target: Container, moved: seq<StoredItem>, k: nat) {
    && k < |moved| && RefusedHere(target, moved, k)
    && forall j :: 0 <= j < k ==> !RefusedHere(target, moved, j)
  }

  lemma FirstRefusedIff(target: Container, moved: seq<StoredItem>, k: nat)
    ensures FirstRefused(target, moved, k) <==> RefusedAt(target, moved) == Some(k)
  {
    RefusedAtIsFirst(target, moved);
  }

  /** What of the `k`-th item merges before it is refused. */
  function MergedAt(target: Container, moved: seq<StoredItem>, k: nat): nat
    requires k < |moved|
  {
    MergedPart(Filled(target, moved[..k]), moved[k])
  }

  /** Some item is the first that the target refuses, and a part of it merges before. */
  ghost predicate FirstRefusedMerges(target: Container, moved: seq<StoredItem>) {
    exists k: nat :: FirstRefused(target, moved, k) && MergedAt(target, moved, k) > 0
  }

  lemma FirstRefusedMergesIff(target: Container, moved: seq<StoredItem>)
    ensures FirstRefusedMerges(target, moved) <==> exists definition: u32 :: Surplus(target, moved, definition) > 0
  {
    var r := RefusedAt(target, moved);
    if r.Some? {
      FirstRefusedIff(target, moved, r.value);
      SurplusOf(target, moved, r.value);
    }
    if k: nat :| FirstRefused(target, moved, k) && MergedAt(target, moved, k) > 0 {
      FirstRefusedIff(target, moved, k);
    }
  }

  lemma SurplusOf(target: Container, moved: seq<StoredItem>, k: nat)
    requires RefusedAt(target, moved) == Some(k)
    ensures forall definition: u32 ::
              Surplus(target, moved, definition) ==
                if moved[k].definition == definition then MergedAt(target, moved, k) else 0
    ensures Surplus(target, moved, moved[k].definition) == MergedAt(target, moved, k)
  {
  }

  /** A deposit by any ids conserves every quantity unless the first refused item merges in part. */
  lemma ConservesIff(source: Container, target: Container, ids: seq<u64>)
    ensures Conserves(source, target, ids) <==> !FirstRefusedMerges(target, Lifted(source.items, ids).0)
  {
    var moved := Lifted(source.items, ids).0;
    FirstRefusedMergesIff(target, moved);
    forall definition: u32
      ensures Held(DepositAll(source, target, ids), definition)
              == Quantity(source.items, definition) + Quantity(target.items, definition)
                + Surplus(target, moved, definition)
    {
      DepositBalances(source, target, ids, definition);
      DuplicatedIsSurplus(source, target, ids, definition);
    }
  }

  /** The source's items whose definition the target holds, in order. */
  function MatchingItems(source: seq<StoredItem>, target: seq<StoredItem>): seq<StoredItem> {
    if source == [] then []
    else
      MatchingItems(source[..|source| - 1], target)
      + (if Matches(source[|source| - 1], target) then [source[|source| - 1]] else [])
  }

  predicate Matches(item: StoredItem, target: seq<StoredItem>) {
    exists i :: 0 <= i < |target| && target[i].definition == item.definition
  }

  /** What `deposit_matching` moves, in order. */
  function MovedItems(source: seq<StoredItem>, target: seq<StoredItem>): seq<StoredItem> {
    Lifted(source, MatchingIds(source, target)).0
  }

  /** `deposit_matching` conserves every quantity unless the first item it moves that the target refuses
      merges in part.  Where the source's ids are distinct it moves the source's matching items. */
  lemma DepositMatchingConservesIff(source: Container, target: Container)
    ensures Conserves(source, target, MatchingIds(source.items, target.items))
            <==> !FirstRefusedMerges(target, MovedItems(source.items, target.items))
    ensures DistinctIds(source.items) ==>
              MovedItems(source.items, target.items) == MatchingItems(source.items, target.items)
  {
    ConservesIff(source, target, MatchingIds(source.items, target.items));
    if DistinctIds(source.items) {
      MatchingAreLifted(source.items, target.items);
    }
  }

  predicate DistinctIds(items: seq<StoredItem>) {
    forall i, j :: 0 <= i < j < |items| ==> items[i].id != items[j].id
  }

  lemma MatchingAreLifted(source: seq<StoredItem>, target: seq<StoredItem>)
    requires DistinctIds(source)
    ensures Lifted(source, MatchingIds(source, target)).0 == MatchingItems(source, target)
  {
    LiftedFromFront(source, target, |source|);
    assert source[..|source|] == source;
  }

  /** The items that stay behind. */
  function OtherItems(source: seq<StoredItem>, target: seq<StoredItem>): seq<StoredItem> {
    if source == [] then []
    else
      OtherItems(source[..|source| - 1], target)
      + (if Matches(source[|source| - 1], target) then [] else [source[|source| - 1]])
  }

  lemma NextMatch(source: seq<StoredItem>, target: seq<StoredItem>, n: nat)
    requires n < |source|
    ensures Matches(source[n], target) ==>
              && MatchingIds(source[..n + 1], target) == MatchingIds(source[..n], target) + [source[n].id]
              && MatchingItems(source[..n + 1], target) == MatchingItems(source[..n], target) + [source[n]]
              && OtherItems(source[..n + 1], target) == OtherItems(source[..n], target)
    ensures !Matches(source[n], target) ==>
              && MatchingIds(source[..n + 1], target) == MatchingIds(source[..n], target)
              && MatchingItems(source[..n + 1], target) == MatchingItems(source[..n], target)
              && OtherItems(source[..n + 1], target) == OtherItems(source[..n], target) + [source[n]]
  {
    assert source[..n + 1][..n] == source[..n] && source[..n + 1][n] == source[n];
  }

  /** What lifting the matching items of the first `n` leaves: the others of them, and all later ones. */
  ghost predicate LiftedUpTo(source: seq<StoredItem>, target: seq<StoredItem>, n: nat)
    requires n <= |source|
  {
    Lifted(source, MatchingIds(source[..n], target))
      == (MatchingItems(source[..n], target), OtherItems(source[..n], target) + source[n..])
  }

  lemma {:induction false} LiftedFromFront(source: seq<StoredItem>, target: seq<StoredItem>, n: nat)
    requires DistinctIds(source) && n <= |source|
    ensures LiftedUpTo(source, target, n)
  {
    if n == 0 {
      LiftedNone(source, target);
    } else {
      LiftedFromFront(source, target, n - 1);
      LiftedStep(source, target, n - 1);
    }
  }

  lemma LiftedNone(source: seq<StoredItem>, target: seq<StoredItem>)
    ensures LiftedUpTo(source, target, 0)
  {
    assert source[..0] == [] && source[0..] == source;
    assert MatchingIds([], target) == [] && OtherItems([], target) == [] && [] + source == source;
  }

  lemma LiftedStep(source: seq<StoredItem>, target: seq<StoredItem>, n: nat)
    requires DistinctIds(source) && n < |source| && LiftedUpTo(source, target, n)
    ensures LiftedUpTo(source, target, n + 1)
  {
    NextMatch(source, target, n);
    OthersDiffer(source, target, n);
    HeadAndTail(source, n);
    LiftNext(source, MatchingIds(source[..n], target), MatchingItems(source[..n], target),
      OtherItems(source[..n], target), source[n], source[n + 1..]);
  }

  lemma HeadAndTail(s: seq<StoredItem>, n: nat)
    requires n < |s|
    ensures s[n..] == [s[n]] + s[n + 1..]
  {
  }

  lemma OthersDiffer(source: seq<StoredItem>, target: seq<StoredItem>, n: nat)
    requires DistinctIds(source) && n < |source|
    ensures forall o :: o in OtherItems(source[..n], target) ==> o.id != source[n].id
  {
    OthersAreBefore(source, target, n);
  }

  lemma LiftOne(
    source: seq<StoredItem>, ids: seq<u64>, moved: seq<StoredItem>, before: seq<StoredItem>, item: StoredItem,
    after: seq<StoredItem>)
    requires Lifted(source, ids) == (moved, before + [item] + after)
    requires forall o :: o in before ==> o.id != item.id
    ensures Lifted(source, ids + [item.id]) == (moved + [item], before + after)
  {
    assert (ids + [item.id])[..|ids|] == ids;
    FoundAt(before, item, after);
    assert (before + [item] + after)[..|before|] == before;
    assert (before + [item] + after)[|before| + 1..] == after;
  }

  /** The next item is lifted by its id, or stays behind. */
  lemma LiftNext(
    source: seq<StoredItem>, ids: seq<u64>, moved: seq<StoredItem>, others: seq<StoredItem>, item: StoredItem,
    after: seq<StoredItem>)
    requires Lifted(source, ids) == (moved, others + ([item] + after))
    requires forall o :: o in others ==> o.id != item.id
    ensures Lifted(source, ids + [item.id]) == (moved + [item], others + after)
    ensures Lifted(source, ids) == (moved, others + [item] + after)
  {
    assert others + ([item] + after) == others + [item] + after;
    LiftOne(source, ids, moved, others, item, after);
  }

  lemma {:induction false} OthersAreBefore(source: seq<StoredItem>, target: seq<StoredItem>, n: nat)
    requires n <= |source|
    ensures forall o :: o in OtherItems(source[..n], target) ==> exists i :: 0 <= i < n && source[i] == o
  {
    if n > 0 {
      OthersAreBefore(source, target, n - 1);
      assert source[..n][..n - 1] == source[..n - 1] && source[..n][n - 1] == source[n - 1];
    }
  }

  lemma {:induction false} FoundAt(before: seq<StoredItem>, item: StoredItem, after: seq<StoredItem>)
    requires forall o :: o in before ==> o.id != item.id
    ensures IndexOf(before + [item] + after, item.id) == Some(|before|)
  {
    var all := before + [item] + after;
    assert all[|before|] == item;
    assert forall i :: 0 <= i < |before| ==> all[i] == before[i] && before[i] in before;
  }

  // ----- A deposit that does not conserve -----

  function Crumbs(id: u64, quantity: u32): StoredItem {
    StoredItem(id, 7, General, 1, quantity, 10, 1, 1, 0, 0, false)
  }

  function OneCell(id: u64, item: StoredItem): Container {
    Container(id, None, {General}, Grid(1, 1), [item], 0, [], true)
  }

  /** A stack of five meets a stack of nine of at most ten in a full grid: one is merged, the other four
      find no place, and all five are put back, so fourteen become fifteen. */
  lemma DepositDuplicates() returns (source: Container, target: Container)
    ensures Packed(source) && Packed(target)
    ensures Quantity(source.items, 7) + Quantity(target.items, 7) == 14
    ensures Held(DepositAll(source, target, MatchingIds(source.items, target.items)), 7) == 15
  {
    source, target := Crumbling();
    CrumbsDuplicated(source, target);
    DepositBalances(source, target, MatchingIds(source.items, target.items), 7);
  }

  lemma Crumbling() returns (source: Container, target: Container)
    ensures source == OneCell(1, Crumbs(1, 5)) && target == OneCell(2, Crumbs(2, 9))
    ensures Packed(source) && Packed(target) && MatchingIds(source.items, target.items) == [1]
    ensures Quantity(source.items, 7) == 5 && Quantity(target.items, 7) == 9
  {
    source, target := OneCell(1, Crumbs(1, 5)), OneCell(2, Crumbs(2, 9));
    CrumbsMatch();
    QuantityOfOne(source.items[0]);
    QuantityOfOne(target.items[0]);
  }

  lemma QuantityOfOne(item: StoredItem)
    ensures Quantity([item], item.definition) == item.quantity
  {
    assert [item][..0] == [];
  }

  lemma CrumbsMatch()
    ensures MatchingIds([Crumbs(1, 5)], [Crumbs(2, 9)]) == [1]
  {
    assert [Crumbs(1, 5)][..0] == [] && [Crumbs(2, 9)][0].definition == Crumbs(1, 5).definition;
  }

  lemma CrumbsDuplicated(source: Container, target: Container)
    requires source == OneCell(1, Crumbs(1, 5)) && target == OneCell(2, Crumbs(2, 9))
    ensures TotalDuplicated(source, target, [1], 7) == 1
  {
    var ids: seq<u64> := [1];
    assert ids[..0] == [];
    CrumbsRefused();
    assert IndexOf(source.items, 1) == Some(0);
    assert TotalDuplicated(source, target, [], 7) == 0
           && DepositAll(source, target, []) == Deposit(source, target, 0, None);
  }

  lemma CrumbsRefused()
    ensures var target := OneCell(2, Crumbs(2, 9));
            QuickInserted(target, Crumbs(1, 5), true).0.Err? && MergedPart(target, Crumbs(1, 5)) == 1
  {
    var target, item := OneCell(2, Crumbs(2, 9)), Crumbs(1, 5);
    assert target.items[..0] == [];
    assert Merged([], 7, 5) == ([], 5, None);
    assert Merged(target.items, 7, 5).0 == [Crumbs(2, 10)];
    assert [Crumbs(2, 10)][0] == Crumbs(2, 10);
    assert !Accepts(1, 1, [Crumbs(2, 10)], 1, 1, Spot(0, 0, false));
    assert FreeSlot(1, 1, [Crumbs(2, 10)], 1, 1, true) == None;
  }
}
