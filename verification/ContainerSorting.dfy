/** Re-packing a whole container, and depositing matching items from one into another
    (crates/domain/src/containers.rs). */
module ContainerSorting {
  import opened MachineInts
  import opened Containers
  import opened FreeSlots
  import opened SlotSearch
  import opened ContainerPacking

  // ----- The order of auto-sort -----

  /** Larger area first, then higher category, then higher definition. */
  predicate GoesBefore(a: StoredItem, b: StoredItem) {
    a.Area() > b.Area()
    || (a.Area() == b.Area() && (a.category.Rank() > b.category.Rank()
                                 || (a.category.Rank() == b.category.Rank() && a.definition > b.definition)))
  }

  predicate Ordered(items: seq<StoredItem>) {
    forall i, j :: 0 <= i < j < |items| ==> !GoesBefore(items[j], items[i])
  }

  lemma OrderedAppended(items: seq<StoredItem>, last: StoredItem)
    requires Ordered(items) && forall i :: 0 <= i < |items| ==> !GoesBefore(last, items[i])
    ensures Ordered(items + [last])
  {
  }

  /** Inserts after every item that does not go after it, so equal items keep their order. */
  function InsertOrdered(sorted: seq<StoredItem>, item: StoredItem): seq<StoredItem> {
    if sorted == [] then [item]
    else if GoesBefore(item, sorted[|sorted| - 1]) then
      InsertOrdered(sorted[..|sorted| - 1], item) + [sorted[|sorted| - 1]]
    else sorted + [item]
  }

  lemma {:induction false} InsertKeepsItems(sorted: seq<StoredItem>, item: StoredItem)
    ensures multiset(InsertOrdered(sorted, item)) == multiset(sorted) + multiset{item}
  {
    if sorted != [] {
      InsertKeepsItems(sorted[..|sorted| - 1], item);
      assert sorted == sorted[..|sorted| - 1] + [sorted[|sorted| - 1]];
    }
  }

  lemma {:induction false} InsertKeepsOrder(sorted: seq<StoredItem>, item: StoredItem)
    requires Ordered(sorted)
    ensures Ordered(InsertOrdered(sorted, item))
  {
    if sorted == [] {
    } else if GoesBefore(item, sorted[|sorted| - 1]) {
      var earlier, last := sorted[..|sorted| - 1], sorted[|sorted| - 1];
      InsertKeepsOrder(earlier, item);
      InsertKeepsItems(earlier, item);
      var r := InsertOrdered(earlier, item);
      forall i | 0 <= i < |r|
        ensures !GoesBefore(last, r[i])
      {
        assert r[i] in multiset(r);
        assert r[i] == item || r[i] in earlier;
      }
      OrderedAppended(r, last);
    } else {
      NoneGoesAfter(sorted, item);
      OrderedAppended(sorted, item);
    }
  }

  lemma NoneGoesAfter(sorted: seq<StoredItem>, item: StoredItem)
    requires Ordered(sorted) && sorted != [] && !GoesBefore(item, sorted[|sorted| - 1])
    ensures forall i :: 0 <= i < |sorted| ==> !GoesBefore(item, sorted[i])
  {
    forall i | 0 <= i < |sorted|
      ensures !GoesBefore(item, sorted[i])
    {
      if i < |sorted| - 1 {
        assert !GoesBefore(sorted[|sorted| - 1], sorted[i]);
      }
    }
  }

  function StableSorted(items: seq<StoredItem>): seq<StoredItem> {
    if items == [] then [] else InsertOrdered(StableSorted(items[..|items| - 1]), items[|items| - 1])
  }

  lemma {:induction false} StableSortedIsSorted(items: seq<StoredItem>)
    ensures Ordered(StableSorted(items)) && multiset(StableSorted(items)) == multiset(items)
  {
    if items != [] {
      StableSortedIsSorted(items[..|items| - 1]);
      InsertKeepsOrder(StableSorted(items[..|items| - 1]), items[|items| - 1]);
      InsertKeepsItems(StableSorted(items[..|items| - 1]), items[|items| - 1]);
      assert items == items[..|items| - 1] + [items[|items| - 1]];
    }
  }

  // ----- Re-packing -----

  /** Places items one after the other, and stops at the first that finds no place. */
  function Repacked(columns: u8, rows: u8, items: seq<StoredItem>): (r: (seq<StoredItem>, bool))
    ensures |r.0| <= |items| && (r.1 <==> |r.0| == |items|)
  {
    if items == [] then ([], true)
    else
      var (placed, ok) := Repacked(columns, rows, items[..|items| - 1]);
      var last := items[|items| - 1];
      if !ok then (placed, false)
      else
        match FreeSlot(columns, rows, placed, last.width, last.height, true)
        case None => (placed, false)
        case Some(spot) => (placed + [PlacedAt(last, spot)], true)
  }

  /** The placed items are the first ones of the list, moved. */
  lemma {:induction false} RepackedKeepsItems(columns: u8, rows: u8, items: seq<StoredItem>)
    ensures var placed := Repacked(columns, rows, items).0;
            forall i :: 0 <= i < |placed| ==> placed[i].Unplaced() == items[i].Unplaced()
  {
    if items != [] {
      RepackedKeepsItems(columns, rows, items[..|items| - 1]);
    }
  }

  lemma {:induction false} RepackedIsPacked(columns: u8, rows: u8, items: seq<StoredItem>)
    requires forall i :: 0 <= i < |items| ==> SearchSafe(columns, rows, items[i].width, items[i].height, true)
    ensures WellPacked(columns, rows, Repacked(columns, rows, items).0)
  {
    if items != [] {
      var last := items[|items| - 1];
      RepackedIsPacked(columns, rows, items[..|items| - 1]);
      var (placed, ok) := Repacked(columns, rows, items[..|items| - 1]);
      SearchExact(columns, rows, placed, last.width, last.height, true);
      var spot := FreeSlot(columns, rows, placed, last.width, last.height, true);
      if ok && spot.Some? {
        LegalPlacementPacked(columns, rows, placed, last, spot.value);
      }
    }
  }

  function AutoSorted(c: Container): (Result<(), PackingError>, Container) {
    if !c.content.Grid? then (Err(NotAGrid), c)
    else
      var (placed, ok) := Repacked(c.content.columns, c.content.rows, StableSorted(c.items));
      (if ok then Ok(()) else Err(SortFailed), c.(items := placed))
  }

  /** The items without their positions, and how often each occurs. */
  ghost function Unplaced(items: seq<StoredItem>): seq<StoredItem> {
    seq(|items|, i requires 0 <= i < |items| => items[i].Unplaced())
  }

  lemma TakenOut<T>(items: seq<T>, k: nat)
    requires k < |items|
    ensures multiset(items[..k] + items[k + 1..]) == multiset(items) - multiset{items[k]}
  {
    assert items == items[..k] + [items[k]] + items[k + 1..];
  }

  lemma UnplacedTakenOut(items: seq<StoredItem>, k: nat)
    requires k < |items|
    ensures multiset(Unplaced(items)) == multiset(Unplaced(items[..k] + items[k + 1..])) + multiset{items[k].Unplaced()}
  {
    var plain := Unplaced(items);
    TakenOut(plain, k);
    assert Unplaced(items[..k] + items[k + 1..]) == plain[..k] + plain[k + 1..];
  }

  lemma {:induction false} UnplacedPermutes(a: seq<StoredItem>, b: seq<StoredItem>)
    requires multiset(a) == multiset(b)
    ensures multiset(Unplaced(a)) == multiset(Unplaced(b))
    decreases |a|
  {
    assert |a| == |multiset(a)| == |multiset(b)| == |b|;
    if a != [] {
      var k := MatchHead(a, b);
      UnplacedPermutes(a[1..], b[..k] + b[k + 1..]);
      UnplacedTakenOut(a, 0);
      assert a[..0] + a[1..] == a[1..];
      UnplacedTakenOut(b, k);
    }
  }

  lemma MatchHead(a: seq<StoredItem>, b: seq<StoredItem>) returns (k: nat)
    requires a != [] && multiset(a) == multiset(b)
    ensures k < |b| && b[k] == a[0] && multiset(a[1..]) == multiset(b[..k] + b[k + 1..])
  {
    assert a[0] in multiset(b);
    k :| 0 <= k < |b| && b[k] == a[0];
    TakenOut(a, 0);
    TakenOut(b, k);
    assert a[..0] + a[1..] == a[1..];
    assert multiset(a[1..]) == multiset(a) - multiset{a[0]};
  }

  /** A sort permutes its container's items exactly when it succeeds; when it fails, the items it did
      not come to are lost. */
  lemma SortPermutesIffOk(c: Container)
    requires c.content.Grid?
    ensures var (r, after) := AutoSorted(c);
            r.Ok? <==> multiset(Unplaced(after.items)) == multiset(Unplaced(c.items))
  {
    var sorted := StableSorted(c.items);
    var (placed, ok) := Repacked(c.content.columns, c.content.rows, sorted);
    StableSortedIsSorted(c.items);
    RepackedKeepsItems(c.content.columns, c.content.rows, sorted);
    UnplacedPermutes(sorted, c.items);
    if ok {
      assert Unplaced(placed) == Unplaced(sorted);
    } else {
      assert |multiset(Unplaced(placed))| == |placed| < |sorted| == |multiset(Unplaced(sorted))|;
    }
  }

  lemma SortKeepsPacked(c: Container)
    requires Packed(c) && c.content.Grid?
    requires forall i :: 0 <= i < |c.items| ==> SafeFor(c, c.items[i], true)
    ensures Packed(AutoSorted(c).1)
  {
    var sorted := StableSorted(c.items);
    StableSortedIsSorted(c.items);
    forall i | 0 <= i < |sorted|
      ensures SearchSafe(c.content.columns, c.content.rows, sorted[i].width, sorted[i].height, true)
    {
      assert sorted[i] in multiset(c.items);
      var k :| 0 <= k < |c.items| && c.items[k] == sorted[i];
      assert SafeFor(c, c.items[k], true);
    }
    RepackedIsPacked(c.content.columns, c.content.rows, sorted);
  }

  method AutoSort(c: Container) returns (r: Result<(), PackingError>, after: Container)
    ensures (r, after) == AutoSorted(c)
  {
    if !c.content.Grid? {
      return Err(NotAGrid), c;
    }
    var sorted := StableSorted(c.items);
    var placed: seq<StoredItem> := [];
    for i := 0 to |sorted|
      invariant (placed, true) == Repacked(c.content.columns, c.content.rows, sorted[..i])
    {
      assert sorted[..i + 1][..i] == sorted[..i];
      var spot := FindFreeSlot(c.content.columns, c.content.rows, placed, sorted[i].width, sorted[i].height, true);
      if spot.None? {
        RepackedStops(c.content.columns, c.content.rows, sorted, i + 1);
        return Err(SortFailed), c.(items := placed);
      }
      placed := placed + [PlacedAt(sorted[i], spot.value)];
    }
    assert sorted[..|sorted|] == sorted;
    r, after := Ok(()), c.(items := placed);
  }

  lemma {:induction false} RepackedStops(columns: u8, rows: u8, items: seq<StoredItem>, i: nat)
    requires i <= |items| && !Repacked(columns, rows, items[..i]).1
    ensures Repacked(columns, rows, items) == Repacked(columns, rows, items[..i])
    decreases |items| - i
  {
    if i < |items| {
      assert items[..i + 1][..i] == items[..i];
      RepackedStops(columns, rows, items, i + 1);
    } else {
      assert items[..i] == items;
    }
  }

  // ----- Drop -----

  function DroppedFrom(c: Container, id: u64): (Result<StoredItem, PackingError>, Container) {
    match IndexOf(c.items, id)
    case None => (Err(ItemNotFound), c)
    case Some(i) => (Ok(c.items[i]), c.(items := c.items[..i] + c.items[i + 1..]))
  }

  /** A drop takes out exactly the item it returns, and leaves the grid packed. */
  lemma DropBalances(c: Container, id: u64, definition: u32)
    requires Packed(c)
    ensures var (r, after) := DroppedFrom(c, id);
            && Quantity(after.items, definition) + (if r.Ok? then OfDefinition(r.value, definition) else 0)
               == Quantity(c.items, definition)
            && Packed(after) && (r.Err? ==> after == c) && (r.Ok? ==> r.value.id == id)
  {
    var i := IndexOf(c.items, id);
    if i.Some? {
      QuantityRemoved(c.items, i.value, definition);
      if c.content.Grid? {
        RemovedPacked(c.content.columns, c.content.rows, c.items, i.value);
      }
    }
  }

  // ----- Deposit -----

  /** The ids of the source's items whose definition the target holds, in order. */
  function MatchingIds(source: seq<StoredItem>, target: seq<StoredItem>): seq<u64> {
    if source == [] then []
    else
      MatchingIds(source[..|source| - 1], target)
      + (if exists i :: 0 <= i < |target| && target[i].definition == source[|source| - 1].definition
         then [source[|source| - 1].id] else [])
  }

  /** A deposit under way; `duplicated` is the item whose insert failed last. */
  datatype Deposit = Deposit(source: Container, target: Container, count: nat, failed: Option<StoredItem>)

  /** Moves one item, or puts it back unmerged and stops. */
  function DepositOne(d: Deposit, id: u64): Deposit {
    if d.failed.Some? then d
    else
      match DroppedFrom(d.source, id)
      case (Err(_), _) => d
      case (Ok(item), rest) =>
        match QuickInserted(d.target, item, true)
        case (Ok(_), target) => Deposit(rest, target, d.count + 1, None)
        case (Err(_), target) => Deposit(rest.(items := rest.items + [item]), target, d.count, Some(item))
  }

  function DepositAll(source: Container, target: Container, ids: seq<u64>): Deposit {
    if ids == [] then Deposit(source, target, 0, None)
    else DepositOne(DepositAll(source, target, ids[..|ids| - 1]), ids[|ids| - 1])
  }

  lemma DepositNext(source: Container, target: Container, ids: seq<u64>, i: nat)
    requires i < |ids|
    ensures DepositAll(source, target, ids[..i + 1]) == DepositOne(DepositAll(source, target, ids[..i]), ids[i])
  {
    assert ids[..i + 1][..i] == ids[..i];
  }

  /** After a failure nothing more is moved. */
  lemma {:induction false} DepositStops(source: Container, target: Container, ids: seq<u64>, i: nat)
    requires i <= |ids| && DepositAll(source, target, ids[..i]).failed.Some?
    ensures DepositAll(source, target, ids) == DepositAll(source, target, ids[..i])
    decreases |ids| - i
  {
    if i < |ids| {
      assert ids[..i + 1][..i] == ids[..i];
      DepositStops(source, target, ids, i + 1);
    } else {
      assert ids[..i] == ids;
    }
  }

  method DropFrom(c: Container, id: u64) returns (r: Result<StoredItem, PackingError>, after: Container)
    ensures r == DroppedFrom(c, id).0 && after == DroppedFrom(c, id).1
  {
    var index := IndexOf(c.items, id);
    if index.None? {
      return Err(ItemNotFound), c;
    }
    r, after := Ok(c.items[index.value]), c.(items := c.items[..index.value] + c.items[index.value + 1..]);
  }

  method DepositItem(d: Deposit, id: u64) returns (next: Deposit)
    requires d.failed == None
    ensures next == DepositOne(d, id)
  {
    var dropped, rest := DropFrom(d.source, id);
    if dropped.Err? {
      return d;
    }
    var inserted, target := InsertInto(d.target, dropped.value, true);
    if inserted.Ok? {
      next := Deposit(rest, target, d.count + 1, None);
    } else {
      next := Deposit(rest.(items := rest.items + [dropped.value]), target, d.count, Some(dropped.value));
    }
  }

  /** Moves the items one by one, until one does not fit. */
  method DepositItems(source: Container, target: Container, ids: seq<u64>) returns (d: Deposit)
    ensures d == DepositAll(source, target, ids)
  {
    d := Deposit(source, target, 0, None);
    assert ids[..0] == [];
    for i := 0 to |ids|
      invariant d == DepositAll(source, target, ids[..i]) && d.failed == None
    {
      DepositNext(source, target, ids, i);
      d := DepositItem(d, ids[i]);
      if d.failed.Some? {
        DepositStops(source, target, ids, i + 1);
        return;
      }
    }
    assert ids[..|ids|] == ids;
  }

  lemma {:induction false} DepositKeepsFrames(source: Container, target: Container, ids: seq<u64>)
    ensures var d := DepositAll(source, target, ids);
            d.source == source.(items := d.source.items) && d.target == target.(items := d.target.items)
  {
    if ids != [] {
      DepositKeepsFrames(source, target, ids[..|ids| - 1]);
      DepositOneFrame(DepositAll(source, target, ids[..|ids| - 1]), ids[|ids| - 1]);
    }
  }

  lemma DepositOneFrame(d: Deposit, id: u64)
    ensures var next := DepositOne(d, id);
            next.source == d.source.(items := next.source.items) && next.target == d.target.(items := next.target.items)
  {
    var i := IndexOf(d.source.items, id);
    if i.Some? {
      InsertFrame(d.target, d.source.items[i.value], true);
    }
  }

  function Held(d: Deposit, definition: u32): nat {
    Quantity(d.source.items, definition) + Quantity(d.target.items, definition)
  }

  /** What one move adds to the two containers together: nothing, unless it fails after merging a
      part of the item it then puts back whole. */
  function Duplicated(d: Deposit, id: u64, definition: u32): nat {
    if d.failed.Some? then 0
    else
      match DroppedFrom(d.source, id)
      case (Err(_), _) => 0
      case (Ok(item), _) =>
        if QuickInserted(d.target, item, true).0.Err? && item.definition == definition
        then MergedPart(d.target, item) else 0
  }

  lemma DepositOneBalances(d: Deposit, id: u64, definition: u32)
    ensures Held(DepositOne(d, id), definition) == Held(d, definition) + Duplicated(d, id, definition)
  {
    var i := IndexOf(d.source.items, id);
    if d.failed.None? && i.Some? {
      var item := d.source.items[i.value];
      var rest := d.source.items[..i.value] + d.source.items[i.value + 1..];
      QuantityRemoved(d.source.items, i.value, definition);
      InsertBalances(d.target, item, true, definition);
      QuantityAppended(rest, item, definition);
    }
  }

  function TotalDuplicated(source: Container, target: Container, ids: seq<u64>, definition: u32): nat {
    if ids == [] then 0
    else TotalDuplicated(source, target, ids[..|ids| - 1], definition)
         + Duplicated(DepositAll(source, target, ids[..|ids| - 1]), ids[|ids| - 1], definition)
  }

  /** Source and target together hold what they held before, plus what a failing insert merged: the
      deposit conserves a definition exactly when that is nothing. */
  lemma {:induction false} DepositBalances(source: Container, target: Container, ids: seq<u64>, definition: u32)
    ensures Held(DepositAll(source, target, ids), definition)
            == Quantity(source.items, definition) + Quantity(target.items, definition)
               + TotalDuplicated(source, target, ids, definition)
  {
    if ids != [] {
      DepositBalances(source, target, ids[..|ids| - 1], definition);
      DepositOneBalances(DepositAll(source, target, ids[..|ids| - 1]), ids[|ids| - 1], definition);
    }
  }

  ghost predicate TargetSafe(source: Container, target: Container) {
    forall i :: 0 <= i < |source.items| ==> SafeFor(target, source.items[i], true)
  }

  lemma DepositOneKeepsPacked(d: Deposit, id: u64)
    requires Packed(d.source) && Packed(d.target) && TargetSafe(d.source, d.target)
    ensures var after := DepositOne(d, id);
            Packed(after.source) && Packed(after.target) && TargetSafe(after.source, after.target)
  {
    var i := IndexOf(d.source.items, id);
    if d.failed.None? && i.Some? {
      var item := d.source.items[i.value];
      DropBalances(d.source, id, 0);
      InsertKeepsPacked(d.target, item, true);
      InsertFrame(d.target, item, true);
      PutBackKeepsPacked(d.source, i.value);
    }
  }

  lemma PutBackKeepsPacked(c: Container, i: nat)
    requires Packed(c) && i < |c.items|
    ensures Packed(c.(items := c.items[..i] + c.items[i + 1..] + [c.items[i]]))
  {
    if c.content.Grid? {
      PutBackPacked(c.content.columns, c.content.rows, c.items, i);
    }
  }

  /** A deposit keeps both grids packed. */
  lemma {:induction false} DepositKeepsPacked(source: Container, target: Container, ids: seq<u64>)
    requires Packed(source) && Packed(target) && TargetSafe(source, target)
    ensures var after := DepositAll(source, target, ids);
            Packed(after.source) && Packed(after.target) && TargetSafe(after.source, after.target)
  {
    if ids != [] {
      DepositKeepsPacked(source, target, ids[..|ids| - 1]);
      DepositOneKeepsPacked(DepositAll(source, target, ids[..|ids| - 1]), ids[|ids| - 1]);
    }
  }
}
