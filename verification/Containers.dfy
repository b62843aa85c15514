/** Containers and the items stored in them (crates/domain/src/containers.rs). */
module Containers {
  import opened MachineInts

  /** In the order of their bits. */
  datatype Category = General | Herb | Ore | Gem | Equipment | Hazardous {
    function Rank(): nat {
      match this
      case General => 1
      case Herb => 2
      case Ore => 4
      case Gem => 8
      case Equipment => 16
      case Hazardous => 32
    }
  }

  datatype StoredItem = StoredItem(
    id: u64,
    definition: u32,
    category: Category,
    unitWeight: u32,
    quantity: u32,
    maxStack: u32,
    width: u8,
    height: u8,
    x: u8,
    y: u8,
    rotated: bool)
  {
    function EffectiveWidth(): u8 { if rotated then height else width }
    function EffectiveHeight(): u8 { if rotated then width else height }
    function Area(): nat { width * height }
    function Weight(): u32 { Min(unitWeight * quantity, U32_MAX) }

    /** The item without its position. */
    function Unplaced(): StoredItem { this.(x := 0, y := 0, rotated := false) }
  }

  datatype Affix = WeightReduction(percent: u8) | FoodPreservation | Fireproof

  datatype Content = NoContent | Grid(columns: u8, rows: u8) | Slots(capacity: nat)

  datatype Container = Container(
    id: u64,
    parent: Option<u64>,
    allowed: set<Category>,
    content: Content,
    items: seq<StoredItem>,
    baseWeight: u32,
    affixes: seq<Affix>,
    nestingAllowed: bool)

  function Reductions(affixes: seq<Affix>): nat {
    if affixes == [] then 0
    else Reductions(affixes[..|affixes| - 1])
         + (match affixes[|affixes| - 1] case WeightReduction(percent) => percent case _ => 0)
  }

  /** The percentages add up in 16 bits, and count for at most 100. */
  function ReductionPercent(c: Container): (p: nat)
    ensures p <= 100
  {
    Min(Reductions(c.affixes) % 0x1_0000, 100)
  }

  /** The sum of 16-bit percentages, in the loop the code uses. */
  method TotalReductionPercent(c: Container) returns (p: u8)
    ensures p == ReductionPercent(c)
  {
    var total: u16 := 0;
    for i := 0 to |c.affixes|
      invariant total == Reductions(c.affixes[..i]) % 0x1_0000
    {
      assert c.affixes[..i + 1][..i] == c.affixes[..i];
      if c.affixes[i].WeightReduction? {
        total := (total + c.affixes[i].percent) % 0x1_0000;
      }
    }
    assert c.affixes[..|c.affixes|] == c.affixes;
    p := Min(total, 100);
  }
}
