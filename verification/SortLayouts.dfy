/** When auto-sort keeps its container's items: the layout it needs, and a container it loses an item of
    (crates/domain/src/containers.rs). */
module SortLayouts {
  import opened MachineInts
  import opened Containers
  import opened FreeSlots
  import opened SlotSearch
  import opened ContainerPacking
  import opened ContainerSorting

  // ----- The layout -----

  /** Items at given spots. */
  function LaidOut(items: seq<StoredItem>, spots: seq<Spot>): seq<StoredItem>
    requires |spots| == |items|
  {
    seq(|items|, i requires 0 <= i < |items| => PlacedAt(items[i], spots[i]))
  }

  /** The first position that passes the search's test among these items. */
  ghost predicate FirstAccepted(columns: u8, rows: u8, items: seq<StoredItem>, item: StoredItem, spot: Spot) {
    && Scans(columns, rows, item.width, item.height, true, spot)
    && Accepts(columns, rows, items, item.width, item.height, spot)
    && forall other ::
         Scans(columns, rows, item.width, item.height, true, other)
         && Accepts(columns, rows, items, item.width, item.height, other)
         ==> other == spot || EarlierThan(spot, other)
  }

  /** Each item lies at the first accepted position among the items before it. */
  ghost predicate FirstFitLayout(columns: u8, rows: u8, items: seq<StoredItem>, spots: seq<Spot>) {
    && |spots| == |items|
    && forall i {:trigger spots[i]} :: 0 <= i < |items| ==>
         FirstAccepted(columns, rows, LaidOut(items[..i], spots[..i]), items[i], spots[i])
  }

  /** Each item lies at the first legal position among the items before it. */
  ghost predicate LegalLayout(columns: u8, rows: u8, items: seq<StoredItem>, spots: seq<Spot>) {
    && |spots| == |items|
    && forall i {:trigger spots[i]} :: 0 <= i < |items| ==>
         FirstLegal(columns, rows, LaidOut(items[..i], spots[..i]), items[i].width, items[i].height, true,
                    Some(spots[i]))
  }

  /** Some first-fit layout exists. */
  ghost predicate HasLayout(columns: u8, rows: u8, items: seq<StoredItem>) {
    exists spots :: FirstFitLayout(columns, rows, items, spots)
  }

  /** And one by legal positions. */
  ghost predicate HasLegalLayout(columns: u8, rows: u8, items: seq<StoredItem>) {
    exists spots :: LegalLayout(columns, rows, items, spots)
  }

  lemma FirstAcceptedIsFound(columns: u8, rows: u8, items: seq<StoredItem>, item: StoredItem, spot: Spot)
    ensures FirstAccepted(columns, rows, items, item, spot)
            <==> FreeSlot(columns, rows, items, item.width, item.height, true) == Some(spot)
  {
    SlotFromIsAccepted(columns, rows, items, item.width, item.height, true, 0, 0);
    forall other | Scans(columns, rows, item.width, item.height, true, other)
                   && Accepts(columns, rows, items, item.width, item.height, other)
      ensures var r := FreeSlot(columns, rows, items, item.width, item.height, true);
              r.Some? && (r.value == other || EarlierThan(r.value, other))
    {
      SlotFromIsFirst(columns, rows, items, item.width, item.height, true, 0, 0, other);
    }
  }

  /** A layout is a layout of all items but the last, and a position for that. */
  lemma LayoutSplits(columns: u8, rows: u8, items: seq<StoredItem>, spots: seq<Spot>)
    requires items != [] && |spots| == |items|
    ensures var n := |items| - 1;
            FirstFitLayout(columns, rows, items, spots)
            <==> && FirstFitLayout(columns, rows, items[..n], spots[..n])
                 && FirstAccepted(columns, rows, LaidOut(items[..n], spots[..n]), items[n], spots[n])
  {
    var n := |items| - 1;
    forall i | 0 <= i < n
      ensures items[..n][..i] == items[..i] && spots[..n][..i] == spots[..i]
      ensures items[..n][i] == items[i] && spots[..n][i] == spots[i]
    {
    }
    assert spots[n] == spots[n];
  }

  lemma LegalLayoutSplits(columns: u8, rows: u8, items: seq<StoredItem>, spots: seq<Spot>)
    requires items != [] && |spots| == |items|
    ensures var n := |items| - 1;
            LegalLayout(columns, rows, items, spots)
            <==> && LegalLayout(columns, rows, items[..n], spots[..n])
                 && FirstLegal(columns, rows, LaidOut(items[..n], spots[..n]), items[n].width, items[n].height, true,
                               Some(spots[n]))
  {
    var n := |items| - 1;
    forall i | 0 <= i < n
      ensures items[..n][..i] == items[..i] && spots[..n][..i] == spots[..i]
      ensures items[..n][i] == items[i] && spots[..n][i] == spots[i]
    {
    }
    assert spots[n] == spots[n];
  }

  /** A layout is what the re-packing finds. */
  lemma {:induction false} LayoutIsRepacked(columns: u8, rows: u8, items: seq<StoredItem>, spots: seq<Spot>)
    requires FirstFitLayout(columns, rows, items, spots)
    ensures Repacked(columns, rows, items) == (LaidOut(items, spots), true)
  {
    if items == [] {
      assert LaidOut(items, spots) == [];
    } else {
      var n := |items| - 1;
      LayoutSplits(columns, rows, items, spots);
      LayoutIsRepacked(columns, rows, items[..n], spots[..n]);
      FirstAcceptedIsFound(columns, rows, LaidOut(items[..n], spots[..n]), items[n], spots[n]);
      assert LaidOut(items, spots) == LaidOut(items[..n], spots[..n]) + [PlacedAt(items[n], spots[n])];
    }
  }

  lemma {:induction false} RepackedHasLayout(columns: u8, rows: u8, items: seq<StoredItem>) returns (spots: seq<Spot>)
    requires Repacked(columns, rows, items).1
    ensures FirstFitLayout(columns, rows, items, spots) && LaidOut(items, spots) == Repacked(columns, rows, items).0
  {
    if items == [] {
      spots := [];
      assert LaidOut(items, spots) == [];
    } else {
      var n := |items| - 1;
      var earlier := RepackedHasLayout(columns, rows, items[..n]);
      var spot := FreeSlot(columns, rows, LaidOut(items[..n], earlier), items[n].width, items[n].height, true).value;
      FirstAcceptedIsFound(columns, rows, LaidOut(items[..n], earlier), items[n], spot);
      spots := earlier + [spot];
      assert spots[..n] == earlier;
      LayoutSplits(columns, rows, items, spots);
      assert LaidOut(items, spots) == LaidOut(items[..n], earlier) + [PlacedAt(items[n], spot)];
    }
  }

  lemma RepacksIffLayout(columns: u8, rows: u8, items: seq<StoredItem>)
    ensures Repacked(columns, rows, items).1 <==> HasLayout(columns, rows, items)
  {
    if Repacked(columns, rows, items).1 {
      var spots := RepackedHasLayout(columns, rows, items);
    } else if spots :| FirstFitLayout(columns, rows, items, spots) {
      LayoutIsRepacked(columns, rows, items, spots);
    }
  }

  /** A sort conserves its container's items exactly when the container has no grid, and is refused, or its
      items, in the sort's order, have a layout in which each lies at the first accepted position among the
      ones before it. */
  lemma SortConservesIff(c: Container)
    ensures multiset(Unplaced(AutoSorted(c).1.items)) == multiset(Unplaced(c.items))
            <==> !c.content.Grid? || HasLayout(c.content.columns, c.content.rows, StableSorted(c.items))
  {
    if c.content.Grid? {
      RepacksIffLayout(c.content.columns, c.content.rows, StableSorted(c.items));
      SortPermutesIffOk(c);
    }
  }

  // ----- Where no sum wraps, accepted is legal -----

  ghost predicate AllSafe(columns: u8, rows: u8, items: seq<StoredItem>) {
    forall i :: 0 <= i < |items| ==> SearchSafe(columns, rows, items[i].width, items[i].height, true)
  }

  lemma FirstAcceptedIsFirstLegal(columns: u8, rows: u8, items: seq<StoredItem>, item: StoredItem, spot: Spot)
    requires WellPacked(columns, rows, items) && SearchSafe(columns, rows, item.width, item.height, true)
    ensures FirstAccepted(columns, rows, items, item, spot)
            <==> FirstLegal(columns, rows, items, item.width, item.height, true, Some(spot))
  {
    FirstAcceptedIsFound(columns, rows, items, item, spot);
    SearchExact(columns, rows, items, item.width, item.height, true);
  }

  lemma {:induction false} LayoutsAgree(columns: u8, rows: u8, items: seq<StoredItem>, spots: seq<Spot>)
    requires AllSafe(columns, rows, items) && |spots| == |items|
    ensures FirstFitLayout(columns, rows, items, spots) <==> LegalLayout(columns, rows, items, spots)
  {
    if items != [] {
      var n := |items| - 1;
      LayoutSplits(columns, rows, items, spots);
      LegalLayoutSplits(columns, rows, items, spots);
      LayoutsAgree(columns, rows, items[..n], spots[..n]);
      if FirstFitLayout(columns, rows, items[..n], spots[..n]) {
        LayoutIsRepacked(columns, rows, items[..n], spots[..n]);
        RepackedIsPacked(columns, rows, items[..n]);
        FirstAcceptedIsFirstLegal(columns, rows, LaidOut(items[..n], spots[..n]), items[n], spots[n]);
      }
    }
  }

  lemma HasLayoutIffLegal(columns: u8, rows: u8, items: seq<StoredItem>)
    requires AllSafe(columns, rows, items)
    ensures HasLayout(columns, rows, items) <==> HasLegalLayout(columns, rows, items)
  {
    forall spots | |spots| == |items|
      ensures FirstFitLayout(columns, rows, items, spots) <==> LegalLayout(columns, rows, items, spots)
    {
      LayoutsAgree(columns, rows, items, spots);
    }
  }

  lemma SortedIsSafe(c: Container)
    requires c.content.Grid? && forall i :: 0 <= i < |c.items| ==> SafeFor(c, c.items[i], true)
    ensures AllSafe(c.content.columns, c.content.rows, StableSorted(c.items))
  {
    var sorted := StableSorted(c.items);
    StableSortedIsSorted(c.items);
    forall i | 0 <= i < |sorted|
      ensures SearchSafe(c.content.columns, c.content.rows, sorted[i].width, sorted[i].height, true)
    {
      assert sorted[i] in multiset(c.items);
      var k :| 0 <= k < |c.items| && c.items[k] == sorted[i];
      assert SafeFor(c, c.items[k], true);
    }
  }

  /** Where no sum wraps that is a layout by first legal positions. */
  lemma SafeSortConservesIff(c: Container)
    requires c.content.Grid? && forall i :: 0 <= i < |c.items| ==> SafeFor(c, c.items[i], true)
    ensures multiset(Unplaced(AutoSorted(c).1.items)) == multiset(Unplaced(c.items))
            <==> HasLegalLayout(c.content.columns, c.content.rows, StableSorted(c.items))
  {
    SortedIsSafe(c);
    SortConservesIff(c);
    HasLayoutIffLegal(c.content.columns, c.content.rows, StableSorted(c.items));
  }

  // ----- A container that loses an item -----

  function Long(id: u64, y: u8): StoredItem { StoredItem(id, 1, General, 1, 1, 1, 4, 1, 0, y, false) }

  function Broad(): StoredItem { StoredItem(3, 1, General, 1, 1, 1, 3, 2, 1, 2, false) }

  /** Two bars in the upper rows and a block of three by two below them. */
  function Awkward(): Container {
    Container(1, None, {General}, Grid(4, 4), [Long(1, 0), Long(2, 1), Broad()], 0, [], true)
  }

  lemma AwkwardOrder()
    ensures StableSorted(Awkward().items) == [Broad(), Long(1, 0), Long(2, 1)]
  {
    var a, b, c := Long(1, 0), Long(2, 1), Broad();
    assert [a, b, c][..2] == [a, b] && [a, b][..1] == [a] && [a][..0] == [];
    assert StableSorted([a]) == [a];
    assert StableSorted([a, b]) == [a, b];
    assert InsertOrdered([a], c) == [c, a] by { assert [a][..0] == []; }
    assert InsertOrdered([a, b], c) == [c, a, b];
  }

  function Block(): StoredItem { PlacedAt(Broad(), Spot(0, 0, false)) }

  function Bar(): StoredItem { PlacedAt(Long(1, 0), Spot(3, 0, true)) }

  /** The block comes first and takes the corner. */
  lemma BlockTakesCorner()
    ensures FreeSlot(4, 4, [], 3, 2, true) == Some(Spot(0, 0, false))
  {
  }

  /** The first bar then stands in the last column. */
  lemma BarStands()
    ensures FreeSlot(4, 4, [Block()], 4, 1, true) == Some(Spot(3, 0, true))
  {
    assert [Block()][0] == Block();
    SearchExact(4, 4, [Block()], 4, 1, true);
    assert Legal(4, 4, [Block()], 4, 1, Spot(3, 0, true));
    forall spot | Scans(4, 4, 4, 1, true, spot) && EarlierThan(spot, Spot(3, 0, true))
      ensures !Legal(4, 4, [Block()], 4, 1, spot)
    {
      assert Overlaps(Candidate(4, 1, spot), [Block()][0]) || !InBounds(4, 4, Candidate(4, 1, spot));
    }
  }

  /** Where it leaves neither a row nor a column free. */
  lemma NoRowLeft()
    ensures FreeSlot(4, 4, [Block(), Bar()], 4, 1, true) == None
  {
    var placed := [Block(), Bar()];
    assert placed[0] == Block() && placed[1] == Bar();
    SearchExact(4, 4, placed, 4, 1, true);
    forall spot | Scans(4, 4, 4, 1, true, spot)
      ensures !Legal(4, 4, placed, 4, 1, spot)
    {
      assert Overlaps(Candidate(4, 1, spot), placed[0]) || Overlaps(Candidate(4, 1, spot), placed[1])
             || !InBounds(4, 4, Candidate(4, 1, spot));
    }
  }

  /** Sorting a packed container of three items fails and leaves two of them. */
  lemma SortLosesAnItem()
    ensures Packed(Awkward()) && forall i :: 0 <= i < 3 ==> SafeFor(Awkward(), Awkward().items[i], true)
    ensures AutoSorted(Awkward()).0.Err? && |AutoSorted(Awkward()).1.items| == 2
  {
    AwkwardOrder();
    AwkwardIsPacked();
    AwkwardRepacked();
  }

  lemma AwkwardIsPacked()
    ensures Packed(Awkward())
  {
    var items := Awkward().items;
    assert items[0] == Long(1, 0) && items[1] == Long(2, 1) && items[2] == Broad();
  }

  lemma AwkwardRepacked()
    ensures Repacked(4, 4, [Broad(), Long(1, 0), Long(2, 1)]) == ([Block(), Bar()], false)
  {
    var a, b, c := Long(1, 0), Long(2, 1), Broad();
    BlockTakesCorner();
    BarStands();
    NoRowLeft();
    assert [c, a, b][..2] == [c, a] && [c, a][..1] == [c] && [c][..0] == [];
    assert Repacked(4, 4, []) == ([], true);
    assert Repacked(4, 4, [c]).0 == [Block()];
    assert Repacked(4, 4, [c, a]).0 == [Block(), Bar()];
  }
}
