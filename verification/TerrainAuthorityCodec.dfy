/** The terrain authority contract and its wire form (crates/contracts/src/terrain_authority.rs). */
module TerrainAuthorityCodec {
  import opened MachineInts
  import opened WireBytes
  import opened Lattice

  const VERSION: u16 := 1
  const MIN_SIDE: u16 := 2
  const MAX_SIDE: u16 := 65
  const HEADER_BYTES: int := 45

  const CELL_WATER: u8 := 4
  const CELL_BLOCKED: u8 := 8

  datatype TerrainContract = TerrainContract(
    version: u16,
    coord: Coord,
    quadrantSizeMm: i64,
    generatorVersion: u32,
    recipeSeed: u64,
    side: u16,
    biomeId: u8,
    elevations: seq<i32>,
    cellFlags: seq<u8>)

  datatype ContractError =
    | UnsupportedVersion
    | InvalidQuadrantSize
    | InvalidGeneratorVersion
    | InvalidControlGridSide
    | ElevationSampleCount
    | CellFlagCount
    | UnknownCellFlags(index: nat)
    | ContradictoryCellFlags(index: nat)
    | InvalidBuildableCell(index: nat)
    | PayloadTooShort
    | InvalidLength(expected: nat, actual: nat)

  // ----- Cell flags: bits 0 to 4 are walkable, buildable, water, blocked, corridor -----

  predicate Walkable(flags: u8) { flags % 2 == 1 }
  predicate Buildable(flags: u8) { flags / 2 % 2 == 1 }
  predicate Water(flags: u8) { flags / 4 % 2 == 1 }
  predicate Blocked(flags: u8) { flags / 8 % 2 == 1 }
  predicate OnlyKnownBits(flags: u8) { flags < 32 }

  predicate ValidFlags(flags: u8) {
    && OnlyKnownBits(flags)
    && !(Walkable(flags) && Blocked(flags))
    && (Buildable(flags) ==> Walkable(flags) && !Water(flags))
  }

  function SampleCount(side: u16): nat { side * side }

  function CellCount(side: u16): nat {
    var cells := if side == 0 then 0 else side - 1;
    cells * cells
  }

  predicate ValidContract(t: TerrainContract) {
    && t.version == VERSION
    && 0 < t.quadrantSizeMm
    && t.generatorVersion != 0
    && MIN_SIDE <= t.side <= MAX_SIDE
    && |t.elevations| == SampleCount(t.side)
    && |t.cellFlags| == CellCount(t.side)
    && forall i :: 0 <= i < |t.cellFlags| ==> ValidFlags(t.cellFlags[i])
  }

  /** What each refusal says about the contract. */
  predicate Violates(t: TerrainContract, e: ContractError) {
    match e
    case UnsupportedVersion => t.version != VERSION
    case InvalidQuadrantSize => t.quadrantSizeMm <= 0
    case InvalidGeneratorVersion => t.generatorVersion == 0
    case InvalidControlGridSide => !(MIN_SIDE <= t.side <= MAX_SIDE)
    case ElevationSampleCount => |t.elevations| != SampleCount(t.side)
    case CellFlagCount => |t.cellFlags| != CellCount(t.side)
    case UnknownCellFlags(i) => i < |t.cellFlags| && t.cellFlags[i] >= 32
    case ContradictoryCellFlags(i) => i < |t.cellFlags| && Walkable(t.cellFlags[i]) && Blocked(t.cellFlags[i])
    case InvalidBuildableCell(i) =>
      && i < |t.cellFlags| && Buildable(t.cellFlags[i])
      && (!Walkable(t.cellFlags[i]) || Blocked(t.cellFlags[i]) || Water(t.cellFlags[i]))
    case _ => false
  }

  function Bit(on: bool): int { if on then 1 else 0 }

  /** The flags read as five bits: which bytes are valid, and what each bit means. */
  lemma FlagBits(walkable: bool, buildable: bool, water: bool, blocked: bool, corridor: bool)
    ensures var flags := Bit(walkable) + 2 * Bit(buildable) + 4 * Bit(water) + 8 * Bit(blocked) + 16 * Bit(corridor);
            && flags < 32
            && Walkable(flags) == walkable && Buildable(flags) == buildable
            && Water(flags) == water && Blocked(flags) == blocked
            && (ValidFlags(flags) <==> !(walkable && blocked) && (buildable ==> walkable && !blocked && !water))
  {
  }

  method Validate(t: TerrainContract) returns (r: Result<(), ContractError>)
    ensures r.Ok? <==> ValidContract(t)
    ensures r.Err? ==> Violates(t, r.error)
    ensures r.Ok? ==> forall e :: !Violates(t, e)
  {
    if t.version != VERSION {
      return Err(UnsupportedVersion);
    }
    if t.quadrantSizeMm <= 0 {
      return Err(InvalidQuadrantSize);
    }
    if t.generatorVersion == 0 {
      return Err(InvalidGeneratorVersion);
    }
    if !(MIN_SIDE <= t.side <= MAX_SIDE) {
      return Err(InvalidControlGridSide);
    }
    if |t.elevations| != SampleCount(t.side) {
      return Err(ElevationSampleCount);
    }
    if |t.cellFlags| != CellCount(t.side) {
      return Err(CellFlagCount);
    }
    for i := 0 to |t.cellFlags|
      invariant forall k :: 0 <= k < i ==> ValidFlags(t.cellFlags[k])
    {
      var flags := t.cellFlags[i];
      if !OnlyKnownBits(flags) {
        return Err(UnknownCellFlags(i));
      }
      if Walkable(flags) && Blocked(flags) {
        return Err(ContradictoryCellFlags(i));
      }
      if Buildable(flags) && (!Walkable(flags) || Blocked(flags) || Water(flags)) {
        return Err(InvalidBuildableCell(i));
      }
    }
    r := Ok(());
  }

  lemma ProductBelow(a: nat, b: nat, bound: nat)
    requires a <= bound && b <= bound
    ensures a * b <= bound * bound
  {
    assert a * b <= bound * b <= bound * bound;
  }

  /** The counts of a valid contract fit the 16-bit fields they are cast to. */
  lemma CountsFit(t: TerrainContract)
    requires ValidContract(t)
    ensures |t.elevations| <= U16_MAX && |t.cellFlags| <= U16_MAX
  {
    ProductBelow(t.side, t.side, MAX_SIDE);
    ProductBelow(t.side - 1, t.side - 1, MAX_SIDE);
  }

  // ----- The wire form -----

  predicate Countable(t: TerrainContract) {
    |t.elevations| <= U16_MAX && |t.cellFlags| <= U16_MAX
  }

  function HeaderOf(t: TerrainContract): (b: Bytes)
    requires Countable(t)
    ensures |b| == HEADER_BYTES
  {
    U16Bytes(t.version) + I64Bytes(t.coord.x) + I64Bytes(t.coord.y) + I64Bytes(t.quadrantSizeMm)
    + U32Bytes(t.generatorVersion) + U64Bytes(t.recipeSeed) + U16Bytes(t.side)
    + U16Bytes(|t.elevations|) + U16Bytes(|t.cellFlags|) + [t.biomeId]
  }

  function Encoding(t: TerrainContract): Bytes
    requires Countable(t)
  {
    HeaderOf(t) + Flatten(t.elevations, I32Bytes) + t.cellFlags
  }

  lemma EncodingShape(t: TerrainContract)
    requires Countable(t)
    ensures var split := HEADER_BYTES + |t.elevations| * 4;
            && |Encoding(t)| == split + |t.cellFlags|
            && Encoding(t)[..HEADER_BYTES] == HeaderOf(t)
            && Encoding(t)[HEADER_BYTES..split] == Flatten(t.elevations, I32Bytes)
            && Encoding(t)[split..] == t.cellFlags
  {
    FlattenLength(t.elevations, I32Bytes, 4);
  }

  /** Which bytes hold which field: the contract with the peers. */
  predicate HeaderAt(t: TerrainContract, payload: Bytes) {
    && FieldAt(payload, 0, 2, t.version)
    && FieldAt(payload, 2, 8, t.coord.x)
    && FieldAt(payload, 10, 8, t.coord.y)
    && FieldAt(payload, 18, 8, t.quadrantSizeMm)
    && FieldAt(payload, 26, 4, t.generatorVersion)
    && FieldAt(payload, 30, 8, t.recipeSeed)
    && FieldAt(payload, 38, 2, t.side)
    && FieldAt(payload, 40, 2, |t.elevations|)
    && FieldAt(payload, 42, 2, |t.cellFlags|)
    && FieldAt(payload, 44, 1, t.biomeId)
  }

  predicate LaidOut(t: TerrainContract, payload: Bytes) {
    var cells := 45 + 4 * |t.elevations|;
    && |payload| == cells + |t.cellFlags|
    && HeaderAt(t, payload)
    && (forall k :: 0 <= k < |t.elevations| ==> FieldAt(payload, 45 + 4 * k, 4, t.elevations[k]))
    && (forall k :: 0 <= k < |t.cellFlags| ==> payload[cells + k] == t.cellFlags[k])
  }

  lemma HeaderPlaced(t: TerrainContract, payload: Bytes)
    requires Countable(t) && HEADER_BYTES <= |payload| && payload[..HEADER_BYTES] == HeaderOf(t)
    ensures HeaderAt(t, payload)
  {
    var h := HeaderOf(t);
    assert payload[0..2] == h[0..2] == U16Bytes(t.version);
    assert payload[2..10] == h[2..10] == I64Bytes(t.coord.x);
    assert payload[10..18] == h[10..18] == I64Bytes(t.coord.y);
    assert payload[18..26] == h[18..26] == I64Bytes(t.quadrantSizeMm);
    assert payload[26..30] == h[26..30] == U32Bytes(t.generatorVersion);
    assert payload[30..38] == h[30..38] == U64Bytes(t.recipeSeed);
    assert payload[38..40] == h[38..40] == U16Bytes(t.side);
    assert payload[40..42] == h[40..42] == U16Bytes(|t.elevations|);
    assert payload[42..44] == h[42..44] == U16Bytes(|t.cellFlags|);
    assert payload[44] == h[44] == t.biomeId;
    HeaderFields(t, payload);
  }

  lemma HeaderFields(t: TerrainContract, payload: Bytes)
    requires Countable(t) && HEADER_BYTES <= |payload|
    requires payload[0..2] == U16Bytes(t.version) && payload[2..10] == I64Bytes(t.coord.x)
    requires payload[10..18] == I64Bytes(t.coord.y) && payload[18..26] == I64Bytes(t.quadrantSizeMm)
    requires payload[26..30] == U32Bytes(t.generatorVersion) && payload[30..38] == U64Bytes(t.recipeSeed)
    requires payload[38..40] == U16Bytes(t.side) && payload[40..42] == U16Bytes(|t.elevations|)
    requires payload[42..44] == U16Bytes(|t.cellFlags|) && payload[44] == t.biomeId
    ensures HeaderAt(t, payload)
  {
    U16Field(payload, 0, t.version);
    I64Field(payload, 2, t.coord.x);
    I64Field(payload, 10, t.coord.y);
    I64Field(payload, 18, t.quadrantSizeMm);
    U32Field(payload, 26, t.generatorVersion);
    U64Field(payload, 30, t.recipeSeed);
    U16Field(payload, 38, t.side);
    U16Field(payload, 40, |t.elevations|);
    U16Field(payload, 42, |t.cellFlags|);
  }

  lemma ElevationRecord(elevations: seq<i32>, k: nat)
    requires k < |elevations|
    ensures |Flatten(elevations, I32Bytes)| == 4 * |elevations|
    ensures Flatten(elevations, I32Bytes)[4 * k..4 * k + 4] == I32Bytes(elevations[k])
  {
    RecordOfFlatten(elevations, I32Bytes, 4, k);
  }

  lemma ElevationPlaced(elevations: seq<i32>, body: Bytes, payload: Bytes, k: nat)
    requires k < |elevations| && 45 + 4 * |elevations| <= |payload| && |body| == 4 * |elevations|
    requires payload[45..45 + 4 * |elevations|] == body && body[4 * k..4 * k + 4] == I32Bytes(elevations[k])
    ensures FieldAt(payload, 45 + 4 * k, 4, elevations[k])
  {
    SliceOfSlice(payload, 45, 45 + 4 * |elevations|, 4 * k, 4 * k + 4);
    I32Field(payload, 45 + 4 * k, elevations[k]);
  }

  lemma EncodingLaidOut(t: TerrainContract)
    requires Countable(t)
    ensures LaidOut(t, Encoding(t))
  {
    EncodingShape(t);
    HeaderPlaced(t, Encoding(t));
    forall k | 0 <= k < |t.elevations|
      ensures FieldAt(Encoding(t), 45 + 4 * k, 4, t.elevations[k])
    {
      ElevationRecord(t.elevations, k);
      ElevationPlaced(t.elevations, Flatten(t.elevations, I32Bytes), Encoding(t), k);
    }
    var cells := 45 + 4 * |t.elevations|;
    assert forall k :: 0 <= k < |t.cellFlags| ==> Encoding(t)[cells..][k] == Encoding(t)[cells + k];
  }

  lemma SameHeader(t: TerrainContract, a: Bytes, b: Bytes)
    requires HeaderAt(t, a) && HeaderAt(t, b)
    ensures forall i :: 0 <= i < 45 ==> a[i] == b[i]
  {
    SameField(a, b, 0, 2, t.version);
    SameField(a, b, 2, 8, t.coord.x);
    SameField(a, b, 10, 8, t.coord.y);
    SameField(a, b, 18, 8, t.quadrantSizeMm);
    SameField(a, b, 26, 4, t.generatorVersion);
    SameField(a, b, 30, 8, t.recipeSeed);
    SameField(a, b, 38, 2, t.side);
    SameField(a, b, 40, 2, |t.elevations|);
    SameField(a, b, 42, 2, |t.cellFlags|);
    SameField(a, b, 44, 1, t.biomeId);
  }

  /** The layout determines the payload. */
  lemma LayoutDetermines(t: TerrainContract, a: Bytes, b: Bytes)
    requires LaidOut(t, a) && LaidOut(t, b)
    ensures a == b
  {
    SameHeader(t, a, b);
    var cells := 45 + 4 * |t.elevations|;
    forall i | 45 <= i < cells
      ensures a[i] == b[i]
    {
      var k := (i - 45) / 4;
      SameField(a, b, 45 + 4 * k, 4, t.elevations[k]);
    }
    forall i | cells <= i < |a|
      ensures a[i] == b[i]
    {
      assert a[cells + (i - cells)] == t.cellFlags[i - cells] == b[cells + (i - cells)];
    }
  }

  lemma LayoutUnique(payload: Bytes)
    ensures forall t :: Countable(t) && LaidOut(t, payload) ==> Encoding(t) == payload
  {
    forall t | Countable(t) && LaidOut(t, payload)
      ensures Encoding(t) == payload
    {
      EncodingLaidOut(t);
      LayoutDetermines(t, Encoding(t), payload);
    }
  }

  lemma HeaderInjective(s: TerrainContract, t: TerrainContract)
    requires Countable(s) && Countable(t) && HeaderOf(s) == HeaderOf(t)
    ensures s.(elevations := t.elevations, cellFlags := t.cellFlags) == t
    ensures |s.elevations| == |t.elevations| && |s.cellFlags| == |t.cellFlags|
  {
    var a, b := HeaderOf(s), HeaderOf(t);
    assert U16Bytes(s.version) == a[0..2] == b[0..2] == U16Bytes(t.version);
    assert I64Bytes(s.coord.x) == a[2..10] == b[2..10] == I64Bytes(t.coord.x);
    assert I64Bytes(s.coord.y) == a[10..18] == b[10..18] == I64Bytes(t.coord.y);
    assert I64Bytes(s.quadrantSizeMm) == a[18..26] == b[18..26] == I64Bytes(t.quadrantSizeMm);
    assert U32Bytes(s.generatorVersion) == a[26..30] == b[26..30] == U32Bytes(t.generatorVersion);
    assert U64Bytes(s.recipeSeed) == a[30..38] == b[30..38] == U64Bytes(t.recipeSeed);
    assert U16Bytes(s.side) == a[38..40] == b[38..40] == U16Bytes(t.side);
    assert U16Bytes(|s.elevations|) == a[40..42] == b[40..42] == U16Bytes(|t.elevations|);
    assert U16Bytes(|s.cellFlags|) == a[42..44] == b[42..44] == U16Bytes(|t.cellFlags|);
    assert s.biomeId == a[44] == b[44] == t.biomeId;
    U16Injective(s.version, t.version);
    I64Injective(s.coord.x, t.coord.x);
    I64Injective(s.coord.y, t.coord.y);
    I64Injective(s.quadrantSizeMm, t.quadrantSizeMm);
    U32Injective(s.generatorVersion, t.generatorVersion);
    U64Injective(s.recipeSeed, t.recipeSeed);
    U16Injective(s.side, t.side);
    U16Injective(|s.elevations|, |t.elevations|);
    U16Injective(|s.cellFlags|, |t.cellFlags|);
  }

  /** No encoding is a prefix of another one: equal encodings come from equal contracts, and a
      proper prefix or extension of an encoding encodes nothing. */
  lemma EncodingPrefixFree(s: TerrainContract, t: TerrainContract)
    requires Countable(s) && Countable(t)
    requires Encoding(s) <= Encoding(t)
    ensures s == t
  {
    EncodingShape(s);
    EncodingShape(t);
    assert HeaderOf(s) == Encoding(t)[..HEADER_BYTES];
    HeaderInjective(s, t);
    assert Encoding(s) == Encoding(t);
    forall x: i32, y: i32 | x in s.elevations && y in t.elevations && I32Bytes(x) == I32Bytes(y)
      ensures x == y
    {
      I32Injective(x, y);
    }
    FlattenInjective(s.elevations, t.elevations, I32Bytes, 4);
  }

  method EncodeWire(t: TerrainContract) returns (r: Result<Bytes, ContractError>)
    ensures r.Ok? <==> ValidContract(t)
    ensures r.Ok? ==> LaidOut(t, r.value)
  {
    var validated := Validate(t);
    if validated.Err? {
      return Err(validated.error);
    }
    CountsFit(t);
    var bytes: Bytes := U16Bytes(t.version);
    bytes := bytes + I64Bytes(t.coord.x);
    bytes := bytes + I64Bytes(t.coord.y);
    bytes := bytes + I64Bytes(t.quadrantSizeMm);
    bytes := bytes + U32Bytes(t.generatorVersion);
    bytes := bytes + U64Bytes(t.recipeSeed);
    bytes := bytes + U16Bytes(t.side);
    bytes := bytes + U16Bytes(|t.elevations|);
    bytes := bytes + U16Bytes(|t.cellFlags|);
    bytes := bytes + [t.biomeId];
    for i := 0 to |t.elevations|
      invariant bytes == HeaderOf(t) + Flatten(t.elevations[..i], I32Bytes)
    {
      assert t.elevations[..i + 1][..i] == t.elevations[..i];
      bytes := bytes + I32Bytes(t.elevations[i]);
    }
    assert t.elevations[..|t.elevations|] == t.elevations;
    bytes := bytes + t.cellFlags;
    EncodingLaidOut(t);
    r := Ok(bytes);
  }

  lemma CountsInHeader(t: TerrainContract)
    requires Countable(t)
    ensures |Encoding(t)| == HEADER_BYTES + |t.elevations| * 4 + |t.cellFlags|
    ensures Encoding(t)[40..42] == U16Bytes(|t.elevations|)
    ensures Encoding(t)[42..44] == U16Bytes(|t.cellFlags|)
  {
    EncodingShape(t);
    assert Encoding(t)[40..42] == HeaderOf(t)[40..42];
    assert Encoding(t)[42..44] == HeaderOf(t)[42..44];
  }

  method ReadElevations(payload: Bytes, sampleCount: nat) returns (elevations: seq<i32>)
    requires HEADER_BYTES + sampleCount * 4 <= |payload|
    ensures |elevations| == sampleCount
    ensures Flatten(elevations, I32Bytes) == payload[HEADER_BYTES..HEADER_BYTES + sampleCount * 4]
  {
    elevations := [];
    var offset: int := HEADER_BYTES;
    for i := 0 to sampleCount
      invariant |elevations| == i && offset == HEADER_BYTES + i * 4
      invariant Flatten(elevations, I32Bytes) == payload[HEADER_BYTES..offset]
    {
      var sample := ReadI32(payload[offset..offset + 4]);
      assert (elevations + [sample])[..i] == elevations;
      assert payload[HEADER_BYTES..offset + 4] == payload[HEADER_BYTES..offset] + I32Bytes(sample);
      elevations := elevations + [sample];
      offset := offset + 4;
    }
  }

  /** The contract spelled out by a header, given the two bodies that follow it. */
  function ReadHeader(h: Bytes, elevations: seq<i32>, cellFlags: seq<u8>): TerrainContract
    requires |h| == HEADER_BYTES
  {
    TerrainContract(
      ReadU16(h[0..2]), Point(ReadI64(h[2..10]), ReadI64(h[10..18])), ReadI64(h[18..26]),
      ReadU32(h[26..30]), ReadU64(h[30..38]), ReadU16(h[38..40]), h[44], elevations, cellFlags)
  }

  lemma HeaderWritten(h: Bytes, elevations: seq<i32>, cellFlags: seq<u8>)
    requires |h| == HEADER_BYTES
    requires |elevations| == ReadU16(h[40..42]) && |cellFlags| == ReadU16(h[42..44])
    ensures HeaderOf(ReadHeader(h, elevations, cellFlags)) == h
  {
    assert h == h[0..2] + h[2..10] + h[10..18] + h[18..26] + h[26..30] + h[30..38] + h[38..40]
                + h[40..42] + h[42..44] + [h[44]];
  }

  method ReadContract(payload: Bytes, sampleCount: u16, cellCount: u16) returns (t: TerrainContract)
    requires |payload| == HEADER_BYTES + 4 * (sampleCount as int) + cellCount
    requires sampleCount == ReadU16(payload[40..42]) && cellCount == ReadU16(payload[42..44])
    ensures Countable(t) && Encoding(t) == payload
  {
    var elevations := ReadElevations(payload, sampleCount);
    var offset: int := HEADER_BYTES + 4 * (sampleCount as int);
    var header := payload[..HEADER_BYTES];
    assert header[40..42] == payload[40..42] && header[42..44] == payload[42..44];
    HeaderWritten(header, elevations, payload[offset..]);
    t := ReadHeader(header, elevations, payload[offset..]);
    assert payload == header + payload[HEADER_BYTES..offset] + payload[offset..];
  }

  /** Accepts exactly the payloads in which a valid contract is laid out, and returns that contract. */
  method DecodeWire(payload: Bytes) returns (r: Result<TerrainContract, ContractError>)
    ensures r.Ok? ==> ValidContract(r.value) && LaidOut(r.value, payload)
    ensures forall t :: ValidContract(t) && LaidOut(t, payload) ==> r == Ok(t)
    ensures r == Err(PayloadTooShort) <==> |payload| < 45
    ensures r.Err? && r.error.InvalidLength? ==>
              && r.error.actual == |payload|
              && r.error.expected == 45 + 4 * (payload[40] as int + 256 * payload[41] as int)
                                     + payload[42] as int + 256 * payload[43] as int
  {
    LayoutUnique(payload);
    forall t | ValidContract(t) ensures Countable(t) { CountsFit(t); }
    if |payload| < HEADER_BYTES {
      forall t | Countable(t) ensures Encoding(t) != payload { EncodingShape(t); }
      return Err(PayloadTooShort);
    }
    var sampleCount, cellCount := ReadU16(payload[40..42]), ReadU16(payload[42..44]);
    U16Value(payload[40..42]);
    U16Value(payload[42..44]);
    var expected: nat := HEADER_BYTES + 4 * (sampleCount as int) + cellCount;
    if |payload| != expected {
      forall t | Countable(t)
        ensures Encoding(t) != payload
      {
        CountsInHeader(t);
        U16Injective(sampleCount, |t.elevations|);
        U16Injective(cellCount, |t.cellFlags|);
      }
      return Err(InvalidLength(expected, |payload|));
    }
    var contract := ReadContract(payload, sampleCount, cellCount);
    forall t | Countable(t) && Encoding(t) == payload
      ensures t == contract
    {
      EncodingPrefixFree(t, contract);
    }
    EncodingLaidOut(contract);
    var validated := Validate(contract);
    if validated.Err? {
      return Err(validated.error);
    }
    r := Ok(contract);
  }
}
