/** A character's containers as one mutable forest (crates/domain/src/containers.rs,
    crates/simulation/src/encumbrance.rs). */
module ContainerTrees {
  import opened MachineInts
  import opened MapTotals
  import opened Containers
  import opened FreeSlots
  import opened SlotSearch
  import opened ContainerPacking
  import opened ContainerSorting
  import opened ContainerForest

  datatype AttachError = WouldCycle | ParentNotFound | NestingRefused | TooDeep | BagNotFound

  lemma ItemsKeepRanked(t: Tree, rank: map<u64, nat>, id: u64, c: Container)
    requires Ranked(t, rank) && id in t && c == t[id].(items := c.items)
    ensures Ranked(t[id := c], rank)
  {
  }

  /** The steps left on the way up. */
  ghost function Climb(t: Tree, rank: map<u64, nat>, at: Option<u64>): nat
    requires Ranked(t, rank)
  {
    if at.None? then 0 else if at.value in t then rank[at.value] + 2 else 1
  }

  function ParentOf(t: Tree, id: u64): Option<u64> {
    if id in t then t[id].parent else None
  }

  /** The recursive weight; children are visited in whatever order the map yields them. */
  method CalculateContainerWeight(t: Tree, ghost rank: map<u64, nat>, ghost top: nat, id: u64) returns (r: Option<u32>)
    requires Ranked(t, rank) && Bounded(rank, top)
    ensures r.Some? <==> id in t
    ensures r.Some? ==> r.value == WeightOf(t, rank, top, id)
    decreases if id in t then top - rank[id] else 0, 3
  {
    if id !in t {
      return None;
    }
    var kids := KidsTotal(t, rank, top, id);
    WeightFromKids(t, rank, top, id);
    r := Some(FinalWeight(t[id], kids));
  }

  method KidsTotal(t: Tree, ghost rank: map<u64, nat>, ghost top: nat, id: u64) returns (kids: u32)
    requires Ranked(t, rank) && Bounded(rank, top) && id in t
    ensures kids == Min(Total(KidWeights(t, rank, top, id), Same()), U32_MAX)
    decreases top - rank[id], 2
  {
    ghost var weights := KidWeights(t, rank, top, id);
    kids := 0;
    var left := t.Keys;
    AllLeft(weights, left);
    while left != {}
      invariant left <= t.Keys
      invariant kids == Min(Total(Without(weights, left), Same()), U32_MAX)
      decreases |left|
    {
      var child :| child in left;
      kids := AddIfKid(t, rank, top, id, weights, left, child, kids);
      left := left - {child};
    }
    assert Without(weights, {}) == weights;
  }

  /** Adds the weight of one container to the sum when it is a child. */
  method AddIfKid(t: Tree, ghost rank: map<u64, nat>, ghost top: nat, id: u64, ghost weights: map<u64, nat>,
                  ghost left: set<u64>, child: u64, kids: u32) returns (sum: u32)
    requires Ranked(t, rank) && Bounded(rank, top) && id in t && weights == KidWeights(t, rank, top, id)
    requires child in left && left <= t.Keys && kids == Min(Total(Without(weights, left), Same()), U32_MAX)
    ensures sum == Min(Total(Without(weights, left - {child}), Same()), U32_MAX)
    decreases top - rank[id], 1
  {
    if t[child].parent == Some(id) {
      var weight := KidWeight(t, rank, top, id, child);
      OneMoreKid(weights, left, child);
      sum := Min(kids + weight, U32_MAX);
    } else {
      NotAKid(weights, left, child);
      sum := kids;
    }
  }

  method KidWeight(t: Tree, ghost rank: map<u64, nat>, ghost top: nat, id: u64, child: u64) returns (weight: u32)
    requires Ranked(t, rank) && Bounded(rank, top) && id in t && child in t && t[child].parent == Some(id)
    ensures child in KidWeights(t, rank, top, id) && weight == KidWeights(t, rank, top, id)[child]
    decreases top - rank[id], 0
  {
    KidIs(t, rank, top, id, child);
    var found := CalculateContainerWeight(t, rank, top, child);
    weight := found.value;
  }

  lemma KidIs(t: Tree, rank: map<u64, nat>, top: nat, id: u64, child: u64)
    requires Ranked(t, rank) && Bounded(rank, top) && id in t && child in t && t[child].parent == Some(id)
    ensures child in KidWeights(t, rank, top, id)
              && KidWeights(t, rank, top, id)[child] == WeightOf(t, rank, top, child)
    ensures rank[id] < rank[child] <= top
  {
  }

  lemma AllLeft(weights: map<u64, nat>, left: set<u64>)
    requires weights.Keys <= left
    ensures Total(Without(weights, left), Same()) == 0
  {
    assert Without(weights, left) == map[];
  }

  lemma NotAKid(weights: map<u64, nat>, left: set<u64>, child: u64)
    requires child !in weights
    ensures Without(weights, left - {child}) == Without(weights, left)
  {
  }

  /** The weights of the children no longer in `left`. */
  ghost function Without(weights: map<u64, nat>, left: set<u64>): map<u64, nat> {
    map k | k in weights && k !in left :: weights[k]
  }

  lemma OneMoreKid(weights: map<u64, nat>, left: set<u64>, child: u64)
    requires child in left && child in weights
    ensures Total(Without(weights, left - {child}), Same()) == Total(Without(weights, left), Same()) + weights[child]
  {
    assert Without(weights, left - {child}) == Without(weights, left)[child := weights[child]];
    TotalPut(Without(weights, left), Same(), child, weights[child]);
  }

  class CharacterContainerTree {
    var rootId: Option<u64>
    var containers: Tree
    ghost var rank: map<u64, nat>

    ghost predicate Valid()
      reads this
    {
      Ranked(containers, rank)
    }

    constructor ()
      ensures Valid() && containers == map[] && rootId == None
    {
      rootId, containers, rank := None, map[], map[];
    }

    method SetRoot(root: Container)
      requires Valid()
      modifies this
      ensures rootId == Some(root.id) && containers == old(containers)[root.id := root]
      ensures root.parent == None ==> Valid()
    {
      rootId := Some(root.id);
      AddContainer(root);
    }

    /** A container without a parent keeps the forest acyclic, even when it replaces another. */
    method AddContainer(c: Container)
      requires Valid()
      modifies this`containers, this`rank
      ensures containers == old(containers)[c.id := c]
      ensures c.parent == None ==> Valid()
    {
      if c.parent == None {
        AddKeepsRanked(containers, rank, c);
        rank := Rebased(rank, c.id);
      }
      containers := containers[c.id := c];
    }

    /** Walks up from the target; the walk ends because the forest is acyclic. */
    method WouldCreateCycle(moving: u64, target: u64) returns (cycle: bool)
      requires Valid()
      ensures cycle <==> moving == target || IsAncestor(containers, rank, moving, target)
    {
      if moving == target {
        return true;
      }
      var current := ParentOf(containers, target);
      while current.Some?
        invariant IsAncestor(containers, rank, moving, target)
                  <==> current.Some? && (current.value == moving || IsAncestor(containers, rank, moving, current.value))
        decreases Climb(containers, rank, current)
      {
        if current.value == moving {
          return true;
        }
        current := ParentOf(containers, current.value);
      }
      cycle := false;
    }

    method GetDepth(id: u64) returns (depth: nat)
      requires Valid()
      ensures depth == Depth(containers, rank, id)
    {
      depth := 0;
      var current := id;
      while current in containers && containers[current].parent.Some?
        invariant depth + Depth(containers, rank, current) == Depth(containers, rank, id)
        decreases Climb(containers, rank, Some(current))
      {
        depth := depth + 1;
        current := containers[current].parent.value;
      }
    }

    /** Attaches a bag under another, keeping the forest acyclic and within the depth allowed. */
    method AttachToParent(bag: u64, target: u64, maxDepth: u32) returns (r: Result<(), AttachError>)
      requires Valid()
      modifies this`containers, this`rank
      ensures Valid()
      ensures r == Err(WouldCycle) <==> bag == target || IsAncestor(old(containers), old(rank), bag, target)
      ensures r.Ok? <==> && bag in old(containers) && target in old(containers)
                         && bag != target && !IsAncestor(old(containers), old(rank), bag, target)
                         && old(containers)[target].nestingAllowed
                         && Depth(old(containers), old(rank), target) + 1 <= maxDepth
      ensures containers == if r.Ok? then Attached(old(containers), bag, target) else old(containers)
    {
      var cycle := WouldCreateCycle(bag, target);
      if cycle {
        return Err(WouldCycle);
      }
      if target !in containers {
        return Err(ParentNotFound);
      }
      if !containers[target].nestingAllowed {
        return Err(NestingRefused);
      }
      var depth := GetDepth(target);
      if depth + 1 > maxDepth {
        return Err(TooDeep);
      }
      if bag !in containers {
        return Err(BagNotFound);
      }
      AttachKeepsRanked(containers, rank, bag, target);
      rank := Lifted(containers, rank, bag, target);
      containers := containers[bag := containers[bag].(parent := Some(target))];
      r := Ok(());
    }

    // ----- Weight -----

    ghost function Top(): nat
      reads this
      ensures Bounded(rank, Top())
    {
      Highest(rank)
    }

    /** A missing root weighs nothing. */
    ghost function TotalWeight(): u32
      requires Valid()
      reads this
    {
      if rootId.Some? && rootId.value in containers then WeightOf(containers, rank, Top(), rootId.value) else 0
    }

    method CurrentTier(capacity: u32) returns (tier: Tier)
      requires Valid()
      ensures tier == TierFor(TotalWeight(), capacity)
    {
      var weight: u32 := 0;
      if rootId.Some? {
        var found := CalculateContainerWeight(containers, rank, Top(), rootId.value);
        weight := if found.Some? then found.value else 0;
      }
      tier := TierFor(weight, capacity);
    }

    // ----- Items -----

    method QuickInsert(id: u64, item: StoredItem, allowRotation: bool) returns (r: Result<StoredItem, PackingError>)
      requires Valid()
      modifies this`containers
      ensures Valid()
      ensures id !in old(containers) ==> r == Err(ContainerNotFound) && containers == old(containers)
      ensures id in old(containers) ==>
                r == QuickInserted(old(containers)[id], item, allowRotation).0
                && containers == old(containers)[id := QuickInserted(old(containers)[id], item, allowRotation).1]
    {
      if id !in containers {
        return Err(ContainerNotFound);
      }
      var c := containers[id];
      InsertFrame(c, item, allowRotation);
      ItemsKeepRanked(containers, rank, id, QuickInserted(c, item, allowRotation).1);
      var result, after := InsertInto(c, item, allowRotation);
      containers := containers[id := after];
      r := result;
    }

    method SplitStack(id: u64, source: u64, amount: u32, newId: u64) returns (r: Result<StoredItem, PackingError>)
      requires Valid()
      modifies this`containers
      ensures Valid()
      ensures id !in old(containers) ==> r == Err(ContainerNotFound)
      ensures r.Err? ==> containers == old(containers)
      ensures id in old(containers) ==>
                r == SplitOff(old(containers)[id], source, amount, newId).0
                && containers == old(containers)[id := SplitOff(old(containers)[id], source, amount, newId).1]
    {
      if id !in containers {
        return Err(ContainerNotFound);
      }
      SplitBalances(containers[id], source, amount, newId, 0);
      var (result, after) := SplitOff(containers[id], source, amount, newId);
      ItemsKeepRanked(containers, rank, id, after);
      assert result.Err? ==> containers[id := after] == containers;
      containers := containers[id := after];
      r := result;
    }

    method AutoSortContainer(id: u64) returns (r: Result<(), PackingError>)
      requires Valid()
      modifies this`containers
      ensures Valid()
      ensures id !in old(containers) ==> r == Err(ContainerNotFound) && containers == old(containers)
      ensures id in old(containers) ==>
                && r == AutoSorted(old(containers)[id]).0
                && containers == old(containers)[id := AutoSorted(old(containers)[id]).1]
    {
      if id !in containers {
        return Err(ContainerNotFound);
      }
      var result, after := AutoSort(containers[id]);
      ItemsKeepRanked(containers, rank, id, after);
      containers := containers[id := after];
      r := result;
    }

    method DropItem(id: u64, itemId: u64) returns (r: Result<StoredItem, PackingError>)
      requires Valid()
      modifies this`containers
      ensures Valid()
      ensures id !in old(containers) ==> r == Err(ContainerNotFound) && containers == old(containers)
      ensures id in old(containers) ==>
                r == DroppedFrom(old(containers)[id], itemId).0
                && containers == old(containers)[id := DroppedFrom(old(containers)[id], itemId).1]
    {
      if id !in containers {
        return Err(ContainerNotFound);
      }
      var c := containers[id];
      var index := IndexOf(c.items, itemId);
      if index.None? {
        assert containers[id := c] == containers;
        return Err(ItemNotFound);
      }
      ItemsKeepRanked(containers, rank, id, c.(items := c.items[..index.value] + c.items[index.value + 1..]));
      containers := containers[id := c.(items := c.items[..index.value] + c.items[index.value + 1..])];
      r := Ok(c.items[index.value]);
    }

    /** Moves the source's items whose definition the target holds, until one does not fit. */
    method DepositMatching(source: u64, target: u64) returns (r: Result<nat, PackingError>)
      requires Valid()
      modifies this`containers
      ensures Valid()
      ensures r.Ok? <==> source != target && source in old(containers) && target in old(containers)
      ensures r.Err? ==> containers == old(containers)
      ensures r.Ok? ==>
                var d := DepositAll(old(containers)[source], old(containers)[target],
                                    MatchingIds(old(containers)[source].items, old(containers)[target].items));
                r.value == d.count && containers == old(containers)[source := d.source][target := d.target]
    {
      if source == target {
        return Err(SameContainer);
      }
      if target !in containers || source !in containers {
        return Err(ContainerNotFound);
      }
      var ids := MatchingIds(containers[source].items, containers[target].items);
      var d := DepositItems(containers[source], containers[target], ids);
      DepositKeepsFrames(containers[source], containers[target], ids);
      ItemsKeepRanked(containers, rank, source, d.source);
      ItemsKeepRanked(containers[source := d.source], rank, target, d.target);
      containers := containers[source := d.source][target := d.target];
      r := Ok(d.count);
    }

    /** Puts an item into the root container; the tier never gets lighter by it while the sum of
        the root's own items fits 32 bits. */
    method PickupItem(item: StoredItem, capacity: u32) returns (r: Result<Tier, PackingError>)
      requires Valid()
      modifies this`containers
      ensures Valid()
      ensures r.Ok? <==> && old(rootId).Some? && old(rootId).value in old(containers)
                         && QuickInserted(old(containers)[old(rootId).value], item, true).0.Ok?
      ensures r.Ok? ==> r.value == TierFor(TotalWeight(), capacity)
      ensures old(rootId).Some? && old(rootId).value in old(containers) ==>
                var root := old(rootId).value;
                containers == old(containers)[root := QuickInserted(old(containers)[root], item, true).1]
      ensures !(old(rootId).Some? && old(rootId).value in old(containers)) ==> containers == old(containers)
      ensures containers.Keys == old(containers).Keys
      ensures r.Ok? && SumFits(old(containers)[old(rootId).value], item, true) ==>
                TierFor(old(TotalWeight()), capacity).Level() <= r.value.Level()
    {
      if rootId.None? {
        return Err(ContainerNotFound);
      }
      ghost var before, top, weight := containers, Top(), TotalWeight();
      var inserted := QuickInsert(rootId.value, item, true);
      if inserted.Err? {
        return Err(inserted.error);
      }
      if SumFits(before[rootId.value], item, true) {
        InsertNeverLowersWeight(before, rank, top, rootId.value, item, true, rootId.value);
        TierMonotone(weight, TotalWeight(), capacity);
      }
      var tier := CurrentTier(capacity);
      r := Ok(tier);
    }
  }

  ghost function Highest(rank: map<u64, nat>): (top: nat)
    ensures Bounded(rank, top)
    decreases |rank|
  {
    if rank == map[] then 0
    else
      var c :| c in rank;
      assert forall k :: k in rank && k != c ==> k in rank - {c} && (rank - {c})[k] == rank[k];
      Max(rank[c], Highest(rank - {c}))
  }
}
