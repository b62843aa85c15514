/** The forest of nested containers, its cycle test and its recursive weight
    (crates/domain/src/containers.rs). */
module ContainerForest {
  import opened MachineInts
  import opened Containers
  import opened ContainerPacking
  import opened MapTotals

  type Tree = map<u64, Container>

  // ----- Acyclic forests -----

  /** Ranks grow from parent to child. */
  ghost predicate Ranked(t: Tree, rank: map<u64, nat>) {
    && t.Keys <= rank.Keys
    && forall c :: c in t ==>
         t[c].id == c && (t[c].parent.Some? && t[c].parent.value in t ==> rank[t[c].parent.value] < rank[c])
  }

  ghost predicate Acyclic(t: Tree) {
    exists rank :: Ranked(t, rank)
  }

  /** Each id is the parent of the one before it. */
  ghost predicate Chain(t: Tree, ids: seq<u64>) {
    && |ids| >= 2
    && forall i :: 0 <= i < |ids| - 1 ==> ids[i] in t && t[ids[i]].parent == Some(ids[i + 1])
  }

  lemma ChainTail(t: Tree, ids: seq<u64>)
    requires Chain(t, ids) && |ids| > 2
    ensures Chain(t, ids[1..])
  {
    forall i | 0 <= i < |ids[1..]| - 1
      ensures ids[1..][i] in t && t[ids[1..][i]].parent == Some(ids[1..][i + 1])
    {
      assert ids[i + 1] in t && t[ids[i + 1]].parent == Some(ids[i + 2]);
    }
  }

  lemma {:induction false} ChainDescends(t: Tree, rank: map<u64, nat>, ids: seq<u64>)
    requires Ranked(t, rank) && Chain(t, ids) && ids[|ids| - 1] in t
    ensures rank[ids[|ids| - 1]] < rank[ids[0]]
    decreases |ids|
  {
    if |ids| > 2 {
      ChainTail(t, ids);
      ChainDescends(t, rank, ids[1..]);
    }
  }

  /** In an acyclic forest no container is inside itself. */
  lemma NoCycles(t: Tree, ids: seq<u64>)
    requires Acyclic(t) && Chain(t, ids)
    ensures ids[0] != ids[|ids| - 1]
  {
    var rank :| Ranked(t, rank);
    if ids[|ids| - 1] in t {
      ChainDescends(t, rank, ids);
    }
  }

  /** `a` is met on the way up from `c`. */
  predicate IsAncestor(t: Tree, ghost rank: map<u64, nat>, a: u64, c: u64)
    requires Ranked(t, rank)
    decreases if c in t then rank[c] + 1 else 0
  {
    && c in t && t[c].parent.Some?
    && (t[c].parent.value == a || IsAncestor(t, rank, a, t[c].parent.value))
  }

  /** A chain to an ancestor that meets it only at its end. */
  lemma {:induction false} AncestorChain(t: Tree, rank: map<u64, nat>, a: u64, c: u64) returns (ids: seq<u64>)
    requires Ranked(t, rank) && IsAncestor(t, rank, a, c) && c != a
    ensures Chain(t, ids) && ids[0] == c && ids[|ids| - 1] == a
    ensures forall i :: 0 <= i < |ids| - 1 ==> ids[i] != a
    decreases if c in t then rank[c] + 1 else 0
  {
    var p := t[c].parent.value;
    if p == a {
      ids := [c, a];
    } else {
      var rest := AncestorChain(t, rank, a, p);
      ids := [c] + rest;
    }
  }

  function Attached(t: Tree, bag: u64, target: u64): Tree
    requires bag in t
  {
    t[bag := t[bag].(parent := Some(target))]
  }

  predicate InSubtree(t: Tree, ghost rank: map<u64, nat>, bag: u64, c: u64)
    requires Ranked(t, rank)
  {
    c == bag || IsAncestor(t, rank, bag, c)
  }

  /** Ranks after an attachment: the moved subtree is lifted above its new parent. */
  ghost function Lifted(t: Tree, rank: map<u64, nat>, bag: u64, target: u64): map<u64, nat>
    requires Ranked(t, rank) && target in rank
  {
    map c | c in rank :: if InSubtree(t, rank, bag, c) then rank[c] + rank[target] + 1 else rank[c]
  }

  lemma AttachKeepsRanked(t: Tree, rank: map<u64, nat>, bag: u64, target: u64)
    requires Ranked(t, rank) && bag in t && target in t && !InSubtree(t, rank, bag, target)
    ensures Ranked(Attached(t, bag, target), Lifted(t, rank, bag, target))
  {
    var after, lifted := Attached(t, bag, target), Lifted(t, rank, bag, target);
    forall c | c in after && after[c].parent.Some? && after[c].parent.value in after
      ensures lifted[after[c].parent.value] < lifted[c]
    {
      if c != bag {
        assert InSubtree(t, rank, bag, c) <==> InSubtree(t, rank, bag, t[c].parent.value);
      }
    }
  }

  /** The cycle test is exact: attaching keeps the forest acyclic if and only if the bag is neither
      the target nor one of its ancestors. */
  lemma CycleTestExact(t: Tree, rank: map<u64, nat>, bag: u64, target: u64)
    requires Ranked(t, rank) && bag in t && target in t
    ensures Acyclic(Attached(t, bag, target)) <==> bag != target && !IsAncestor(t, rank, bag, target)
  {
    var after := Attached(t, bag, target);
    if bag != target && !IsAncestor(t, rank, bag, target) {
      AttachKeepsRanked(t, rank, bag, target);
    } else if Acyclic(after) {
      if bag == target {
        NoCycles(after, [bag, bag]);
      } else {
        var ids := AncestorChain(t, rank, bag, target);
        assert Chain(after, [bag] + ids);
        NoCycles(after, [bag] + ids);
      }
    }
  }

  /** A container without a parent fits under any forest, whatever it replaces. */
  ghost function Rebased(rank: map<u64, nat>, id: u64): map<u64, nat> {
    map c | c in rank.Keys + {id} :: if c == id then 0 else rank[c] + 1
  }

  lemma AddKeepsRanked(t: Tree, rank: map<u64, nat>, c: Container)
    requires Ranked(t, rank) && c.parent == None
    ensures Ranked(t[c.id := c], Rebased(rank, c.id))
  {
  }

  /** How many containers a container is inside of. */
  function Depth(t: Tree, ghost rank: map<u64, nat>, c: u64): nat
    requires Ranked(t, rank)
    decreases if c in t then rank[c] + 1 else 0
  {
    if c in t && t[c].parent.Some? then 1 + Depth(t, rank, t[c].parent.value) else 0
  }

  /** The depth is the number of steps from parent to parent up to a container without one, or to one that
      is not there. */
  lemma {:induction false} DepthIsChainLength(t: Tree, rank: map<u64, nat>, ids: seq<u64>)
    requires Ranked(t, rank) && Chain(t, ids)
    requires ids[|ids| - 1] in t ==> t[ids[|ids| - 1]].parent.None?
    ensures Depth(t, rank, ids[0]) == |ids| - 1
    ensures Depth(t, rank, ids[|ids| - 1]) == 0
    decreases |ids|
  {
    if |ids| > 2 {
      ChainTail(t, ids);
      DepthIsChainLength(t, rank, ids[1..]);
    }
  }

  // ----- Weight -----

  function DirectSum(items: seq<StoredItem>): nat {
    if items == [] then 0 else DirectSum(items[..|items| - 1]) + items[|items| - 1].Weight()
  }

  /** The items' own weight, added up in 32 bits. */
  function DirectWeight(c: Container): u32 {
    DirectSum(c.items) % 0x1_0000_0000
  }

  lemma PercentBelow(total: nat, percent: nat)
    requires percent <= 100
    ensures 0 <= total * percent / 100 <= total
  {
    assert 0 <= total * percent <= total * 100;
  }

  /** What a percentage leaves of a weight. */
  function Discounted(total: nat, percent: nat): (r: nat)
    requires percent <= 100
    ensures r <= total
  {
    PercentBelow(total, percent);
    total - total * percent / 100
  }

  /** A container's weight from the total of its items and bags; every sum saturates. */
  function Weighed(c: Container, total: nat): u32 {
    Min(c.baseWeight + Discounted(Min(total, U32_MAX), ReductionPercent(c)), U32_MAX)
  }

  /** A container's weight from that of its bags. */
  function FinalWeight(c: Container, kids: nat): u32 {
    Weighed(c, DirectWeight(c) + Min(kids, U32_MAX))
  }

  ghost function Children(t: Tree, c: u64): set<u64> {
    set k | k in t && t[k].parent == Some(c)
  }

  ghost predicate Bounded(rank: map<u64, nat>, top: nat) {
    forall c :: c in rank ==> rank[c] <= top
  }

  function Same(): nat -> nat { (w: nat) => w }

  /** The weight of a container: its own, and its children's in any order. */
  ghost function WeightOf(t: Tree, rank: map<u64, nat>, top: nat, c: u64): u32
    requires Ranked(t, rank) && Bounded(rank, top) && c in t
    decreases top - rank[c]
  {
    FinalWeight(t[c], Total(map k | k in Children(t, c) :: WeightOf(t, rank, top, k) as nat, Same()))
  }

  /** The weights of the children of a container. */
  ghost function KidWeights(t: Tree, rank: map<u64, nat>, top: nat, c: u64): map<u64, nat>
    requires Ranked(t, rank) && Bounded(rank, top) && c in t
  {
    map k | k in Children(t, c) :: WeightOf(t, rank, top, k)
  }

  lemma WeightFromKids(t: Tree, rank: map<u64, nat>, top: nat, c: u64)
    requires Ranked(t, rank) && Bounded(rank, top) && c in t
    ensures WeightOf(t, rank, top, c) == FinalWeight(t[c], Total(KidWeights(t, rank, top, c), Same()))
  {
    var kids := map k | k in Children(t, c) :: WeightOf(t, rank, top, k) as nat;
    assert KidWeights(t, rank, top, c) == kids;
    assert WeightOf(t, rank, top, c) == FinalWeight(t[c], Total(kids, Same()));
  }

  /** The weight does not depend on how the forest is ranked. */
  lemma {:induction false} WeightRankIndependent(
    t: Tree, rank: map<u64, nat>, top: nat, other: map<u64, nat>, otherTop: nat, c: u64)
    requires Ranked(t, rank) && Bounded(rank, top) && Ranked(t, other) && Bounded(other, otherTop) && c in t
    ensures WeightOf(t, rank, top, c) == WeightOf(t, other, otherTop, c)
    decreases top - rank[c]
  {
    forall k | k in Children(t, c)
      ensures WeightOf(t, rank, top, k) == WeightOf(t, other, otherTop, k)
    {
      WeightRankIndependent(t, rank, top, other, otherTop, k);
    }
    assert KidWeights(t, rank, top, c) == KidWeights(t, other, otherTop, c);
    WeightFromKids(t, rank, top, c);
    WeightFromKids(t, other, otherTop, c);
  }

  // ----- Weight never falls when an item goes in -----

  lemma DiscountMonotone(a: nat, b: nat, percent: nat)
    requires a <= b && percent <= 100
    ensures Discounted(a, percent) <= Discounted(b, percent)
  {
    var d := b - a;
    assert b * percent == a * percent + d * percent;
    assert d * percent <= d * 100;
    assert (a * percent + d * 100) / 100 == a * percent / 100 + d;
  }

  lemma FinalWeightMonotone(c: Container, d: Container, kids: nat, more: nat)
    requires d == c.(items := d.items) && DirectWeight(c) <= DirectWeight(d) && kids <= more
    ensures FinalWeight(c, kids) <= FinalWeight(d, more)
  {
    DiscountMonotone(Min(DirectWeight(c) + Min(kids, U32_MAX), U32_MAX),
                     Min(DirectWeight(d) + Min(more, U32_MAX), U32_MAX), ReductionPercent(c));
  }

  lemma {:induction false} TopUpWeighsMore(items: seq<StoredItem>, definition: u32, quantity: u32)
    ensures DirectSum(items) <= DirectSum(Merged(items, definition, quantity).0)
  {
    if items != [] {
      TopUpWeighsMore(items[..|items| - 1], definition, quantity);
      var last := items[|items| - 1];
      var stacks := Merged(items, definition, quantity).0;
      assert stacks[..|items| - 1] == Merged(items[..|items| - 1], definition, quantity).0;
      assert last.unitWeight * last.quantity <= last.unitWeight * stacks[|items| - 1].quantity by {
        ProductGrows(last.unitWeight, last.quantity, stacks[|items| - 1].quantity);
      }
    }
  }

  lemma ProductGrows(a: nat, b: nat, c: nat)
    requires b <= c
    ensures a * b <= a * c
  {
  }

  lemma InsertAddsWeight(c: Container, item: StoredItem, allowRotation: bool)
    ensures DirectSum(c.items) <= DirectSum(QuickInserted(c, item, allowRotation).1.items)
  {
    var after := QuickInserted(c, item, allowRotation).1;
    TopUpWeighsMore(c.items, item.definition, item.quantity);
    if |after.items| > |c.items| {
      assert after.items[..|after.items| - 1] == MergedInto(c, item).0;
    }
  }

  /** Adding to a 32-bit sum lowers it exactly when it wraps. */
  lemma WrappedSumGrowsIff(sum: nat, added: u32)
    ensures sum % 0x1_0000_0000 <= (sum + added) % 0x1_0000_0000 <==> sum % 0x1_0000_0000 + added <= U32_MAX
  {
    var low := sum % 0x1_0000_0000;
    assert (sum + added) % 0x1_0000_0000 == (low + added) % 0x1_0000_0000;
  }

  /** What an insert adds to the weight of a container's own items, whether or not the sum wraps. */
  ghost function Added(c: Container, item: StoredItem, allowRotation: bool): nat {
    InsertAddsWeight(c, item, allowRotation);
    DirectSum(QuickInserted(c, item, allowRotation).1.items) - DirectSum(c.items)
  }

  /** The 32-bit sum of the items' weights has room for what the insert adds. */
  ghost predicate SumFits(c: Container, item: StoredItem, allowRotation: bool) {
    DirectWeight(c) + Added(c, item, allowRotation) <= U32_MAX
  }

  /** Quick-inserting an item never lowers the weight of any container of the forest, as long as the
      32-bit sum over the receiving container's items has room for it. */
  lemma InsertNeverLowersWeight(
    t: Tree, rank: map<u64, nat>, top: nat, target: u64, item: StoredItem, allowRotation: bool, c: u64)
    requires Ranked(t, rank) && Bounded(rank, top) && target in t && c in t
    requires SumFits(t[target], item, allowRotation)
    ensures var u := t[target := QuickInserted(t[target], item, allowRotation).1];
            Ranked(u, rank) && WeightOf(t, rank, top, c) <= WeightOf(u, rank, top, c)
  {
    InsertFrame(t[target], item, allowRotation);
    WrappedSumGrowsIff(DirectSum(t[target].items), Added(t[target], item, allowRotation));
    HeavierItems(t[target], QuickInserted(t[target], item, allowRotation).1);
    OneHeavierWeighsMore(t, rank, top, target, QuickInserted(t[target], item, allowRotation).1, c);
  }

  lemma HeavierItems(c: Container, after: Container)
    requires after == c.(items := after.items) && DirectWeight(c) <= DirectWeight(after)
    ensures WeighsNoLess(c, after)
  {
    forall kids: u32
      ensures FinalWeight(c, kids) <= FinalWeight(after, kids)
    {
      FinalWeightMonotone(c, after, kids, kids);
    }
  }

  /** In no forest does inserting the item into the container lower a weight. */
  ghost predicate NeverLowersWeight(c: Container, item: StoredItem, allowRotation: bool) {
    forall t: Tree, rank, top, k |
      Ranked(t, rank) && Bounded(rank, top) && c.id in t && t[c.id] == c && k in t ::
        var u := t[c.id := QuickInserted(c, item, allowRotation).1];
        Ranked(u, rank) && WeightOf(t, rank, top, k) <= WeightOf(u, rank, top, k)
  }

  /** Whatever the bags inside weigh, the container weighs no less after the insert. */
  ghost predicate WeighsNoLess(c: Container, after: Container) {
    forall kids: u32 :: FinalWeight(c, kids) <= FinalWeight(after, kids)
  }

  /** Its weight is the same from this total of its items on, whatever the bags inside add. */
  predicate FlatFrom(c: Container, direct: nat) { Weighed(c, direct) == Weighed(c, direct + U32_MAX) }

  lemma WeighedMonotone(c: Container, a: nat, b: nat)
    requires a <= b
    ensures Weighed(c, a) <= Weighed(c, b)
  {
    DiscountMonotone(Min(a, U32_MAX), Min(b, U32_MAX), ReductionPercent(c));
  }

  ghost predicate Rising(w: nat -> nat) {
    forall a: nat, b: nat :: a <= b ==> w(a) <= w(b)
  }

  /** Between two arguments of different value there is one after which the value changes. */
  lemma {:induction false} RisesSomewhere(w: nat -> nat, from: nat, until: nat) returns (at: nat)
    requires from <= until && w(from) < w(until)
    ensures from <= at < until && w(at) < w(at + 1)
    decreases until
  {
    if w(until - 1) < w(until) {
      at := until - 1;
    } else {
      at := RisesSomewhere(w, from, until - 1);
    }
  }

  /** `k` further on, a start at `low` has reached no less than a start at `high`. */
  predicate KeepsUp(w: nat -> nat, low: nat, high: nat, k: nat) { w(high + k) <= w(low + k) }

  /** A lower start keeps up everywhere only where a rising function that saturates at `top` is flat: at an
      argument where it rises the lower start is behind. */
  lemma KeepsUpIffFlat(w: nat -> nat, low: nat, high: nat, top: nat)
    requires Rising(w) && low < high && forall n: nat :: top <= n ==> w(n) == w(top)
    ensures (forall k: nat :: k <= top ==> KeepsUp(w, low, high, k)) <==> w(low) == w(low + top)
  {
    if w(low) == w(low + top) {
      forall k: nat | k <= top
        ensures KeepsUp(w, low, high, k)
      {
        assert w(high + k) <= w(high + k + top) == w(top) == w(low + top);
        assert w(low) <= w(low + k);
      }
    } else {
      assert w(low) < w(low + top);
      var at := RisesSomewhere(w, low, low + top);
      assert w(at + 1) <= w(high + (at - low));
      assert !KeepsUp(w, low, high, at - low);
    }
  }

  /** The weight as a function of the total. */
  function WeightByTotal(c: Container): nat -> nat { (total: nat) => Weighed(c, total) }

  lemma WeightRises(c: Container)
    ensures Rising(WeightByTotal(c))
    ensures forall n: nat :: U32_MAX <= n ==> WeightByTotal(c)(n) == WeightByTotal(c)(U32_MAX)
  {
    forall a: nat, b: nat | a <= b
      ensures WeightByTotal(c)(a) <= WeightByTotal(c)(b)
    {
      WeighedMonotone(c, a, b);
    }
    forall n: nat | U32_MAX <= n
      ensures WeightByTotal(c)(n) == WeightByTotal(c)(U32_MAX)
    {
      SaturatedWeight(c, n);
    }
  }

  lemma SaturatedWeight(c: Container, total: nat)
    requires U32_MAX <= total
    ensures Weighed(c, total) == Weighed(c, U32_MAX)
  {
    assert Min(total, U32_MAX) == Min(U32_MAX, U32_MAX);
  }

  lemma WeighsNoLessIsKeepingUp(c: Container, after: Container)
    requires after == c.(items := after.items)
    ensures WeighsNoLess(c, after) <==>
              forall k: nat :: k <= U32_MAX ==> KeepsUp(WeightByTotal(c), DirectWeight(after), DirectWeight(c), k)
  {
    forall k: u32
      ensures FinalWeight(c, k) <= FinalWeight(after, k)
              <==> KeepsUp(WeightByTotal(c), DirectWeight(after), DirectWeight(c), k)
    {
    }
    if WeighsNoLess(c, after) {
      forall k: nat | k <= U32_MAX
        ensures KeepsUp(WeightByTotal(c), DirectWeight(after), DirectWeight(c), k)
      {
        var kids: u32 := k;
        assert FinalWeight(c, kids) <= FinalWeight(after, kids);
      }
    }
  }

  /** A container whose items' sum falls weighs no less only where its weight is flat. */
  lemma FallShowsIff(c: Container, after: Container)
    requires after == c.(items := after.items) && DirectWeight(after) < DirectWeight(c)
    ensures WeighsNoLess(c, after) <==> FlatFrom(c, DirectWeight(after))
  {
    WeightRises(c);
    KeepsUpIffFlat(WeightByTotal(c), DirectWeight(after), DirectWeight(c), U32_MAX);
    WeighsNoLessIsKeepingUp(c, after);
  }

  /** The sum of the items after the insert. */
  ghost function SumAfter(c: Container, item: StoredItem, allowRotation: bool): u32 {
    (DirectWeight(c) + Added(c, item, allowRotation)) % 0x1_0000_0000
  }

  lemma SumAfterIs(c: Container, item: StoredItem, allowRotation: bool)
    ensures DirectWeight(QuickInserted(c, item, allowRotation).1) == SumAfter(c, item, allowRotation)
  {
    InsertFrame(c, item, allowRotation);
    WrappedSum(DirectSum(c.items), Added(c, item, allowRotation));
  }

  lemma WeighsNoLessIff(c: Container, item: StoredItem, allowRotation: bool)
    ensures WeighsNoLess(c, QuickInserted(c, item, allowRotation).1)
            <==> || DirectWeight(c) <= SumAfter(c, item, allowRotation)
                 || FlatFrom(c, SumAfter(c, item, allowRotation))
  {
    InsertFrame(c, item, allowRotation);
    SumAfterIs(c, item, allowRotation);
    if DirectWeight(c) <= SumAfter(c, item, allowRotation) {
      HeavierItems(c, QuickInserted(c, item, allowRotation).1);
    } else {
      FallShowsIff(c, QuickInserted(c, item, allowRotation).1);
    }
  }

  /** Exactly when an insert lowers no weight anywhere: the sum of the items does not fall by wrapping, or
      the container's weight is flat from the fallen sum on.  A container that is its own parent is in no
      forest. */
  lemma NeverLowersWeightIff(c: Container, item: StoredItem, allowRotation: bool)
    ensures NeverLowersWeight(c, item, allowRotation)
            <==> || c.parent == Some(c.id)
                 || DirectWeight(c) <= SumAfter(c, item, allowRotation)
                 || FlatFrom(c, SumAfter(c, item, allowRotation))
  {
    WeighsNoLessIff(c, item, allowRotation);
    if c.parent == Some(c.id) {
      assert forall t: Tree, rank :: Ranked(t, rank) && c.id in t ==> t[c.id] != c;
    } else if WeighsNoLess(c, QuickInserted(c, item, allowRotation).1) {
      NoLessNeverLowers(c, item, allowRotation);
    } else {
      var kids: u32 :| FinalWeight(c, kids) > FinalWeight(QuickInserted(c, item, allowRotation).1, kids);
      FallsWithBag(c, item, allowRotation, kids);
    }
  }

  lemma NoLessNeverLowers(c: Container, item: StoredItem, allowRotation: bool)
    requires WeighsNoLess(c, QuickInserted(c, item, allowRotation).1)
    ensures NeverLowersWeight(c, item, allowRotation)
  {
    forall t: Tree, rank, top, k |
      Ranked(t, rank) && Bounded(rank, top) && c.id in t && t[c.id] == c && k in t
      ensures var u := t[c.id := QuickInserted(c, item, allowRotation).1];
              Ranked(u, rank) && WeightOf(t, rank, top, k) <= WeightOf(u, rank, top, k)
    {
      InsertFrame(c, item, allowRotation);
      OneHeavierWeighsMore(t, rank, top, c.id, QuickInserted(c, item, allowRotation).1, k);
    }
  }

  /** A bag of the right weight inside shows the fall. */
  lemma FallsWithBag(c: Container, item: StoredItem, allowRotation: bool, kids: u32)
    requires c.parent != Some(c.id)
    requires FinalWeight(c, kids) > FinalWeight(QuickInserted(c, item, allowRotation).1, kids)
    ensures !NeverLowersWeight(c, item, allowRotation)
  {
    InsertFrame(c, item, allowRotation);
    BagShowsFall(c, QuickInserted(c, item, allowRotation).1, kids);
  }

  lemma BagShowsFall(c: Container, after: Container, kids: u32)
    requires c.parent != Some(c.id) && after == c.(items := after.items)
    requires FinalWeight(c, kids) > FinalWeight(after, kids)
    ensures Ranked(WithBag(c, kids), BagRank(c)) && Bounded(BagRank(c), 1) && WithBag(c, kids)[c.id] == c
    ensures var u := WithBag(c, kids)[c.id := after];
            Ranked(u, BagRank(c)) && WeightOf(WithBag(c, kids), BagRank(c), 1, c.id) > WeightOf(u, BagRank(c), 1, c.id)
  {
    WithBagUpdated(c, after, kids);
    WithBagWeighs(c, kids);
    WithBagWeighs(after, kids);
  }

  lemma WithBagUpdated(c: Container, after: Container, kids: u32)
    requires after == c.(items := after.items)
    ensures WithBag(c, kids)[c.id := after] == WithBag(after, kids) && BagRank(after) == BagRank(c)
  {
  }

  lemma {:induction false} OneHeavierWeighsMore(t: Tree, rank: map<u64, nat>, top: nat, target: u64,
                                                after: Container, k: u64)
    requires Ranked(t, rank) && Bounded(rank, top) && target in t && k in t
    requires after == t[target].(items := after.items) && WeighsNoLess(t[target], after)
    ensures Ranked(t[target := after], rank)
    ensures WeightOf(t, rank, top, k) <= WeightOf(t[target := after], rank, top, k)
    decreases top - rank[k]
  {
    var u: Tree := t[target := after];
    assert Children(t, k) == Children(u, k);
    forall bag | bag in Children(t, k)
      ensures WeightOf(t, rank, top, bag) <= WeightOf(u, rank, top, bag)
    {
      OneHeavierWeighsMore(t, rank, top, target, after, bag);
    }
    TotalMonotone(KidWeights(t, rank, top, k), KidWeights(u, rank, top, k), Same());
    WeightFromKids(t, rank, top, k);
    WeightFromKids(u, rank, top, k);
    FormulaGrows(t[k], u[k], Total(KidWeights(t, rank, top, k), Same()), Total(KidWeights(u, rank, top, k), Same()));
  }

  lemma FormulaGrows(c: Container, after: Container, kids: nat, more: nat)
    requires after == c.(items := after.items) && (after == c || WeighsNoLess(c, after)) && kids <= more
    ensures FinalWeight(c, kids) <= FinalWeight(after, more)
  {
    assert FinalWeight(c, Min(kids, U32_MAX)) <= FinalWeight(after, Min(kids, U32_MAX));
    FinalWeightMonotone(after, after, kids, more);
  }

  /** An id for a bag inside the container. */
  function BagId(c: Container): (id: u64)
    ensures id != c.id && c.parent != Some(id)
  {
    if c.id != 0 && c.parent != Some(0) then 0
    else if c.id != 1 && c.parent != Some(1) then 1
    else 2
  }

  /** The container with one bag of the given weight inside. */
  function WithBag(c: Container, weight: u32): Tree {
    map[c.id := c, BagId(c) := Container(BagId(c), Some(c.id), {}, NoContent, [], weight, [], false)]
  }

  function BagRank(c: Container): map<u64, nat> { map[c.id := 0, BagId(c) := 1] }

  lemma WithBagRanked(c: Container, weight: u32)
    requires c.parent != Some(c.id)
    ensures Ranked(WithBag(c, weight), BagRank(c)) && Bounded(BagRank(c), 1) && WithBag(c, weight)[c.id] == c
  {
  }

  lemma EmptyBagWeighs(c: Container, weight: u32)
    requires c.parent != Some(c.id)
    ensures Ranked(WithBag(c, weight), BagRank(c)) && Bounded(BagRank(c), 1)
    ensures WeightOf(WithBag(c, weight), BagRank(c), 1, BagId(c)) == weight
  {
    WithBagRanked(c, weight);
    assert Children(WithBag(c, weight), BagId(c)) == {};
    assert KidWeights(WithBag(c, weight), BagRank(c), 1, BagId(c)) == map[];
    WeightFromKids(WithBag(c, weight), BagRank(c), 1, BagId(c));
    BagWeighs(WithBag(c, weight)[BagId(c)]);
  }

  lemma WithBagWeighs(c: Container, weight: u32)
    requires c.parent != Some(c.id)
    ensures Ranked(WithBag(c, weight), BagRank(c)) && Bounded(BagRank(c), 1) && WithBag(c, weight)[c.id] == c
    ensures WeightOf(WithBag(c, weight), BagRank(c), 1, c.id) == FinalWeight(c, weight)
  {
    WithBagRanked(c, weight);
    EmptyBagWeighs(c, weight);
    assert Children(WithBag(c, weight), c.id) == {BagId(c)};
    OneKidTotal(KidWeights(WithBag(c, weight), BagRank(c), 1, c.id), BagId(c), weight);
    WeightFromKids(WithBag(c, weight), BagRank(c), 1, c.id);
  }

  lemma OneKidTotal(weights: map<u64, nat>, kid: u64, weight: nat)
    requires weights.Keys == {kid} && weights[kid] == weight
    ensures Total(weights, Same()) == weight
  {
    TotalWithout(weights, Same(), kid);
    assert weights - {kid} == map[];
  }

  lemma BagWeighs(bag: Container)
    requires bag.items == [] && bag.affixes == []
    ensures FinalWeight(bag, 0) == bag.baseWeight
  {
  }

  /** No weight of its own and no reduction. */
  predicate Plain(c: Container) {
    c.baseWeight == 0 && ReductionPercent(c) == 0
  }

  /** A plain container's weight is its total, which is flat only at the end of its range: there the insert
      lowers no weight exactly when the sum does not fall. */
  lemma PlainNeverLowersIff(c: Container, item: StoredItem, allowRotation: bool)
    requires Plain(c) && c.parent != Some(c.id)
    ensures NeverLowersWeight(c, item, allowRotation) <==> DirectWeight(c) <= SumAfter(c, item, allowRotation)
  {
    NeverLowersWeightIff(c, item, allowRotation);
    var after := SumAfter(c, item, allowRotation);
    assert Weighed(c, after) == after && Weighed(c, after + U32_MAX) == U32_MAX;
  }

  lemma WrappedSum(sum: nat, added: nat)
    ensures (sum % 0x1_0000_0000 + added) % 0x1_0000_0000 == (sum + added) % 0x1_0000_0000
  {
  }

  /** A stack of the given definition that weighs `unit` apiece. */
  function StackOf(definition: u32, unit: u32, maxStack: u32): StoredItem {
    StoredItem(definition, definition, General, unit, 1, maxStack, 1, 1, 0, 0, false)
  }

  /** Three gigagrams and one more: the insert succeeds, and the container weighs nothing. */
  lemma WrappingInsertLowersWeight() returns (c: Container, item: StoredItem)
    ensures Plain(c) && c.parent != Some(c.id) && QuickInserted(c, item, true).0.Ok?
    ensures DirectWeight(c) == 0xC000_0000 && DirectWeight(QuickInserted(c, item, true).1) == 0
    ensures !NeverLowersWeight(c, item, true)
  {
    item := StackOf(2, 0x4000_0000, 2);
    var heavy := StackOf(1, 0x8000_0000, 1);
    c := Container(1, None, {General}, Grid(2, 1), [heavy, item], 0, [], true);
    assert Merged([], 2, 1) == ([], 1, None);
    assert [heavy][..0] == [] && [] + [heavy] == [heavy];
    assert Merged([heavy], 2, 1).0 == [heavy];
    var doubled := item.(quantity := 2);
    assert c.items[..1] == [heavy] && [heavy] + [doubled] == [heavy, doubled];
    assert Merged(c.items, 2, 1).0 == [heavy, doubled];
    assert DirectSum([heavy]) == 0x8000_0000;
    assert DirectSum(c.items) == 0xC000_0000;
    assert [heavy, doubled][..1] == [heavy];
    assert DirectSum([heavy, doubled]) == 0x1_0000_0000;
    SumAfterIs(c, item, true);
    PlainNeverLowersIff(c, item, true);
  }

  // ----- Encumbrance -----

  datatype Tier = Light | Medium | Heavy | Overburdened {
    function Level(): nat {
      match this
      case Light => 0
      case Medium => 1
      case Heavy => 2
      case Overburdened => 3
    }

    predicate CanSprint() { Light? || Medium? }
    predicate CanDodge() { !Overburdened? }
  }

  function TierFor(weight: u32, capacity: u32): Tier {
    if capacity == 0 then Overburdened
    else
      var percentage := weight * 100 / capacity;
      if percentage <= 50 then Light
      else if percentage <= 80 then Medium
      else if percentage <= 100 then Heavy
      else Overburdened
  }

  lemma ProductOrder(d: nat, p: nat, q: nat)
    ensures p <= q ==> d * p <= d * q
  {
  }

  lemma QuotientMonotone(a: nat, b: nat, d: nat)
    requires a <= b && 0 < d
    ensures a / d <= b / d
  {
    ProductOrder(d, b / d + 1, a / d);
    assert a == d * (a / d) + a % d && b == d * (b / d) + b % d;
    assert d * (b / d + 1) == d * (b / d) + d;
  }

  /** More weight never means a lighter tier, nor restores a lost ability. */
  lemma TierMonotone(weight: u32, more: u32, capacity: u32)
    requires weight <= more
    ensures TierFor(weight, capacity).Level() <= TierFor(more, capacity).Level()
    ensures TierFor(more, capacity).CanSprint() ==> TierFor(weight, capacity).CanSprint()
    ensures TierFor(more, capacity).CanDodge() ==> TierFor(weight, capacity).CanDodge()
  {
    if capacity != 0 {
      QuotientMonotone(weight * 100, more * 100, capacity);
    }
  }
}
