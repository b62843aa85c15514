/** The order in which a sort places items, told from their sizes, categories and definitions
    (crates/domain/src/containers.rs). */
module SortOrder {
  import opened MachineInts
  import opened Containers
  import opened ContainerSorting

  /** The categories from the first-placed to the last. */
  const PRECEDENCE: seq<Category> := [Hazardous, Equipment, Gem, Ore, Herb, General]

  predicate CategoryBefore(a: Category, b: Category) {
    exists i, j :: 0 <= i < j < 6 && PRECEDENCE[i] == a && PRECEDENCE[j] == b
  }

  /** `a` must not stand after `b`: more cells, or as many and an earlier category, or the same and a
      higher definition number. */
  predicate Precedes(a: StoredItem, b: StoredItem) {
    || a.width * a.height > b.width * b.height
    || (a.width * a.height == b.width * b.height && CategoryBefore(a.category, b.category))
    || (a.width * a.height == b.width * b.height && a.category == b.category && a.definition > b.definition)
  }

  /** Neither precedes the other. */
  predicate Alike(a: StoredItem, b: StoredItem) {
    a.width * a.height == b.width * b.height && a.category == b.category && a.definition == b.definition
  }

  /** The items alike to a given one, in order. */
  function Those(items: seq<StoredItem>, like: StoredItem): seq<StoredItem> {
    if items == [] then []
    else
      Those(items[..|items| - 1], like)
      + if Alike(items[|items| - 1], like) then [items[|items| - 1]] else []
  }

  predicate InOrder(order: seq<StoredItem>) {
    forall i, j :: 0 <= i < j < |order| ==> !Precedes(order[j], order[i])
  }

  /** Alike items stand in the same order in both lists. */
  ghost predicate SameGroups(a: seq<StoredItem>, b: seq<StoredItem>) {
    forall like :: Those(a, like) == Those(b, like)
  }

  /** A list of the same items, of which none precedes an earlier one, and alike ones keep their order. */
  ghost predicate PlacingOrder(items: seq<StoredItem>, order: seq<StoredItem>) {
    multiset(order) == multiset(items) && InOrder(order) && SameGroups(order, items)
  }

  lemma CategoryRanks(a: Category, b: Category)
    ensures CategoryBefore(a, b) <==> a.Rank() > b.Rank()
  {
    assert PRECEDENCE[0] == Hazardous && PRECEDENCE[1] == Equipment && PRECEDENCE[2] == Gem;
    assert PRECEDENCE[3] == Ore && PRECEDENCE[4] == Herb && PRECEDENCE[5] == General;
  }

  lemma SameRank(a: Category, b: Category)
    ensures a.Rank() == b.Rank() <==> a == b
  {
  }

  lemma GoesBeforeIff(a: StoredItem, b: StoredItem)
    ensures GoesBefore(a, b) <==> Precedes(a, b)
  {
    CategoryRanks(a.category, b.category);
    SameRank(a.category, b.category);
    SameArea(a);
    SameArea(b);
  }

  lemma SameArea(a: StoredItem)
    ensures a.Area() == a.width * a.height
  {
  }

  lemma AlikeNeitherBefore(a: StoredItem, b: StoredItem)
    requires Alike(a, b)
    ensures !GoesBefore(a, b)
  {
  }

  lemma {:induction false} ThoseAppended(items: seq<StoredItem>, last: StoredItem, like: StoredItem)
    ensures Those(items + [last], like) == Those(items, like) + if Alike(last, like) then [last] else []
  {
    assert (items + [last])[..|items|] == items;
  }

  lemma {:induction false} InsertKeepsThose(sorted: seq<StoredItem>, item: StoredItem, like: StoredItem)
    ensures Those(InsertOrdered(sorted, item), like) == Those(sorted, like) + if Alike(item, like) then [item] else []
  {
    if sorted == [] {
      ThoseAppended([], item, like);
    } else {
      var front, last := sorted[..|sorted| - 1], sorted[|sorted| - 1];
      assert sorted == front + [last];
      if GoesBefore(item, last) {
        InsertKeepsThose(front, item, like);
        ThoseAppended(InsertOrdered(front, item), last, like);
        if Alike(item, like) && Alike(last, like) {
          AlikeNeitherBefore(item, last);
        }
      } else {
        ThoseAppended(sorted, item, like);
      }
    }
  }

  lemma {:induction false} SortKeepsThose(items: seq<StoredItem>, like: StoredItem)
    ensures Those(StableSorted(items), like) == Those(items, like)
  {
    if items != [] {
      SortKeepsThose(items[..|items| - 1], like);
      InsertKeepsThose(StableSorted(items[..|items| - 1]), items[|items| - 1], like);
    }
  }

  lemma SortedIsPlacingOrder(items: seq<StoredItem>)
    ensures PlacingOrder(items, StableSorted(items))
  {
    var order := StableSorted(items);
    StableSortedIsSorted(items);
    forall i, j | 0 <= i < j < |order|
      ensures !Precedes(order[j], order[i])
    {
      GoesBeforeIff(order[j], order[i]);
    }
    forall like
      ensures Those(order, like) == Those(items, like)
    {
      SortKeepsThose(items, like);
    }
  }

  /** After a sort the container holds, in placing order, the first of its items: all of them when it
      succeeds, and those before the first that found no place when it fails. */
  lemma SortPlacesInOrder(c: Container)
    requires c.content.Grid?
    ensures var (r, after) := AutoSorted(c);
            exists order: seq<StoredItem> ::
              && PlacingOrder(c.items, order) && |after.items| <= |order|
              && (forall i :: 0 <= i < |after.items| ==> after.items[i].Unplaced() == order[i].Unplaced())
              && (r.Ok? <==> |after.items| == |order|)
  {
    var order := StableSorted(c.items);
    SortedIsPlacingOrder(c.items);
    RepackedKeepsItems(c.content.columns, c.content.rows, order);
  }

  /** There is only one placing order. */
  lemma {:induction false} PlacingOrderUnique(items: seq<StoredItem>, a: seq<StoredItem>, b: seq<StoredItem>)
    requires PlacingOrder(items, a) && PlacingOrder(items, b)
    ensures a == b
  {
    SameMultisetLength(a, b);
    OrdersAgree(a, b);
  }

  lemma SameMultisetLength(a: seq<StoredItem>, b: seq<StoredItem>)
    requires multiset(a) == multiset(b)
    ensures |a| == |b|
  {
    assert |multiset(a)| == |a| && |multiset(b)| == |b|;
  }

  lemma ThoseHasLast(items: seq<StoredItem>, like: StoredItem)
    requires items != [] && Alike(items[|items| - 1], like)
    ensures Those(items, like) != [] && Those(items, like)[|Those(items, like)| - 1] == items[|items| - 1]
  {
  }

  lemma {:induction false} OrdersAgree(a: seq<StoredItem>, b: seq<StoredItem>)
    requires |a| == |b| && multiset(a) == multiset(b)
    requires InOrder(a) && InOrder(b) && SameGroups(a, b)
    ensures a == b
    decreases |a|
  {
    if a != [] {
      var n := |a| - 1;
      LastsAlike(a, b);
      LastsEqual(a, b);
      assert a == a[..n] + [a[n]] && b == b[..n] + [a[n]];
      WithoutLasts(a[..n], b[..n], a[n]);
      OrdersAgree(a[..n], b[..n]);
    }
  }

  lemma LastsEqual(a: seq<StoredItem>, b: seq<StoredItem>)
    requires a != [] && |a| == |b| && SameGroups(a, b) && Alike(b[|b| - 1], a[|a| - 1])
    ensures a[|a| - 1] == b[|b| - 1]
  {
    ThoseHasLast(a, a[|a| - 1]);
    ThoseHasLast(b, a[|a| - 1]);
  }

  lemma CancelSuffix<T>(a: seq<T>, b: seq<T>, suffix: seq<T>)
    requires a + suffix == b + suffix
    ensures a == b
  {
    assert |a + suffix| == |b + suffix|;
    assert a == (a + suffix)[..|a|] && b == (b + suffix)[..|b|];
  }

  lemma WithoutLasts(a: seq<StoredItem>, b: seq<StoredItem>, last: StoredItem)
    requires SameGroups(a + [last], b + [last]) && multiset(a + [last]) == multiset(b + [last])
    ensures SameGroups(a, b) && multiset(a) == multiset(b)
  {
    forall like
      ensures Those(a, like) == Those(b, like)
    {
      ThoseAppended(a, last, like);
      ThoseAppended(b, last, like);
      CancelSuffix(Those(a, like), Those(b, like), if Alike(last, like) then [last] else []);
    }
    assert multiset(a + [last]) - multiset{last} == multiset(a);
    assert multiset(b + [last]) - multiset{last} == multiset(b);
  }

  /** The lasts are alike: each stands somewhere in the other list, where it precedes no earlier item. */
  lemma LastsAlike(a: seq<StoredItem>, b: seq<StoredItem>)
    requires a != [] && |a| == |b| && multiset(a) == multiset(b)
    requires InOrder(a) && InOrder(b)
    ensures Alike(a[|a| - 1], b[|b| - 1]) && Alike(b[|b| - 1], a[|a| - 1])
  {
    var x, y := a[|a| - 1], b[|b| - 1];
    assert x in multiset(b) && y in multiset(a);
    var i :| 0 <= i < |b| && b[i] == x;
    var j :| 0 <= j < |a| && a[j] == y;
    if i == |b| - 1 || j == |a| - 1 {
    } else {
      assert !Precedes(y, x) && !Precedes(x, y);
      CategoriesCompare(x.category, y.category);
    }
  }

  lemma CategoriesCompare(a: Category, b: Category)
    ensures a == b || CategoryBefore(a, b) || CategoryBefore(b, a)
  {
    CategoryRanks(a, b);
    CategoryRanks(b, a);
    SameRank(a, b);
  }
}
