/** What a container weighs and how heavily it loads its character, told from items, bags and affixes
    (crates/domain/src/containers.rs, crates/simulation/src/encumbrance.rs). */
module ContainerWeights {
  import opened MachineInts
  import opened Containers
  import opened ContainerForest
  import opened MapTotals

  /** The weight of some items, each counted for at most what 32 bits hold. */
  function ItemsWeigh(items: seq<StoredItem>): nat {
    if items == [] then 0
    else (if items[0].unitWeight * items[0].quantity < 0x1_0000_0000 then items[0].unitWeight * items[0].quantity
          else 0xFFFF_FFFF)
         + ItemsWeigh(items[1..])
  }

  /** The percentages that some affixes take off. */
  function PercentOff(affixes: seq<Affix>): nat {
    if affixes == [] then 0
    else (match affixes[0] case WeightReduction(percent) => percent case FoodPreservation => 0 case Fireproof => 0)
         + PercentOff(affixes[1..])
  }

  lemma ItemWeighs(item: StoredItem)
    ensures item.Weight() == if item.unitWeight * item.quantity < 0x1_0000_0000
                             then item.unitWeight * item.quantity else 0xFFFF_FFFF
  {
  }

  lemma {:induction false} ItemsWeighAppended(items: seq<StoredItem>, last: StoredItem)
    ensures ItemsWeigh(items + [last]) == ItemsWeigh(items) + last.Weight()
  {
    ItemWeighs(last);
    if items == [] {
      assert items + [last] == [last] && [last][1..] == [];
    } else {
      assert (items + [last])[1..] == items[1..] + [last];
      ItemsWeighAppended(items[1..], last);
    }
  }

  lemma {:induction false} DirectSumWeighs(items: seq<StoredItem>)
    ensures DirectSum(items) == ItemsWeigh(items)
  {
    if items != [] {
      DirectSumWeighs(items[..|items| - 1]);
      assert items == items[..|items| - 1] + [items[|items| - 1]];
      ItemsWeighAppended(items[..|items| - 1], items[|items| - 1]);
    }
  }

  lemma {:induction false} PercentOffAppended(affixes: seq<Affix>, last: Affix)
    ensures PercentOff(affixes + [last]) == PercentOff(affixes) + if last.WeightReduction? then last.percent else 0
  {
    if affixes == [] {
      assert affixes + [last] == [last] && [last][1..] == [];
    } else {
      assert (affixes + [last])[1..] == affixes[1..] + [last];
      PercentOffAppended(affixes[1..], last);
    }
  }

  lemma {:induction false} ReductionsTakeOff(affixes: seq<Affix>)
    ensures Reductions(affixes) == PercentOff(affixes)
  {
    if affixes != [] {
      ReductionsTakeOff(affixes[..|affixes| - 1]);
      assert affixes == affixes[..|affixes| - 1] + [affixes[|affixes| - 1]];
      PercentOffAppended(affixes[..|affixes| - 1], affixes[|affixes| - 1]);
    }
  }

  /** `left` is what `percent` taken off leaves of a weight, rounded up to a whole gram. */
  predicate Reduced(weight: nat, percent: nat, left: int)
    requires percent <= 100
  {
    weight * (100 - percent) <= 100 * left < weight * (100 - percent) + 100
  }

  /** A base weight and what a percentage leaves of a content, in 32 bits. */
  ghost predicate Weighs(base: nat, content: nat, percent: nat, weight: nat)
    requires percent <= 100
  {
    exists left :: Reduced(content, percent, left) && weight == Min(base + left, 0xFFFF_FFFF)
  }

  lemma DiscountedReduces(weight: nat, percent: nat)
    requires percent <= 100
    ensures Reduced(weight, percent, Discounted(weight, percent))
  {
    assert weight * (100 - percent) == 100 * weight - weight * percent;
    var off := weight * percent / 100;
    assert 100 * off <= weight * percent < 100 * off + 100;
  }

  /** The weight of the bags that a container holds, in any order. */
  ghost function BagsWeigh(t: Tree, rank: map<u64, nat>, top: nat, c: u64): nat
    requires Ranked(t, rank) && Bounded(rank, top) && c in t
  {
    Total(map k | k in t && t[k].parent == Some(c) :: WeightOf(t, rank, top, k) as nat, (w: nat) => w)
  }

  /** A container weighs its own base weight, which no affix reduces, and what its affixes leave of the
      weight of its items and bags together; each sum stops at the largest 32-bit number, except that of
      the items, which wraps. */
  lemma WeightMeaning(t: Tree, rank: map<u64, nat>, top: nat, c: u64)
    requires Ranked(t, rank) && Bounded(rank, top) && c in t
    ensures var items := ItemsWeigh(t[c].items) % 0x1_0000_0000;
            var bags := Min(BagsWeigh(t, rank, top, c), 0xFFFF_FFFF);
            var percent := Min(PercentOff(t[c].affixes) % 0x1_0000, 100);
            Weighs(t[c].baseWeight, Min(items + bags, 0xFFFF_FFFF), percent, WeightOf(t, rank, top, c))
  {
    var kids := Total(KidWeights(t, rank, top, c), Same());
    WeightFromKids(t, rank, top, c);
    KidsAreBags(t, rank, top, c);
    DirectSumWeighs(t[c].items);
    ReductionsTakeOff(t[c].affixes);
    var total := Min(DirectWeight(t[c]) + Min(kids, U32_MAX), U32_MAX);
    DiscountedReduces(total, ReductionPercent(t[c]));
    assert WeightOf(t, rank, top, c)
      == Min(t[c].baseWeight + Discounted(total, ReductionPercent(t[c])), 0xFFFF_FFFF);
  }

  lemma KidsAreBags(t: Tree, rank: map<u64, nat>, top: nat, c: u64)
    requires Ranked(t, rank) && Bounded(rank, top) && c in t
    ensures Total(KidWeights(t, rank, top, c), Same()) == BagsWeigh(t, rank, top, c)
  {
    var bags := map k | k in t && t[k].parent == Some(c) :: WeightOf(t, rank, top, k) as nat;
    assert KidWeights(t, rank, top, c) == bags;
    SameTotals(bags, Same(), (w: nat) => w);
  }

  lemma {:induction false} SameTotals(m: map<u64, nat>, f: nat -> nat, g: nat -> nat)
    requires forall w :: f(w) == g(w)
    ensures Total(m, f) == Total(m, g)
    decreases |m|
  {
    if m != map[] {
      var k :| k in m;
      TotalWithout(m, f, k);
      TotalWithout(m, g, k);
      SameTotals(m - {k}, f, g);
    }
  }

  /** The tiers, by weight and capacity: a load counts in whole percents of the capacity, so each limit
      of 50, 80 and 100 percent is only passed one whole percent later. */
  lemma TierMeaning(weight: u32, capacity: u32)
    ensures capacity == 0 ==> TierFor(weight, capacity) == Overburdened
    ensures capacity > 0 ==>
              && (TierFor(weight, capacity) == Light <==> 100 * weight < 51 * capacity)
              && (TierFor(weight, capacity) == Medium <==> 51 * capacity <= 100 * weight < 81 * capacity)
              && (TierFor(weight, capacity) == Heavy <==> 81 * capacity <= 100 * weight < 101 * capacity)
              && (TierFor(weight, capacity) == Overburdened <==> 101 * capacity <= 100 * weight)
    ensures TierFor(weight, capacity).CanSprint() <==> capacity > 0 && 100 * weight < 81 * capacity
    ensures TierFor(weight, capacity).CanDodge() <==> capacity > 0 && 100 * weight < 101 * capacity
  {
    if capacity > 0 {
      QuotientBelow(100 * weight, capacity, 51);
      QuotientBelow(100 * weight, capacity, 81);
      QuotientBelow(100 * weight, capacity, 101);
    }
  }

  lemma QuotientBelow(n: nat, d: nat, q: nat)
    requires 0 < d
    ensures n / d < q <==> n < q * d
  {
    assert n == d * (n / d) + n % d;
    if n / d < q {
      assert d * (n / d + 1) <= d * q;
    } else {
      assert d * q <= d * (n / d);
    }
  }
}
