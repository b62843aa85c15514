/** The environment presentation policy and its wire form
    (crates/contracts/src/environment_presentation.rs). */
module EnvironmentPresentationCodec {
  import opened MachineInts
  import opened WireBytes
  import opened Lattice
  import T = TerrainAuthorityCodec

  const VERSION: u16 := 1
  const HEADER_BYTES: int := 38

  datatype EnvironmentPolicy = EnvironmentPolicy(
    version: u16,
    coord: Coord,
    terrainGeneratorVersion: u32,
    policyGeneratorVersion: u32,
    policySeed: u64,
    side: u16,
    cellFamilyMasks: seq<u16>)

  datatype PolicyError =
    | UnsupportedVersion
    | InvalidTerrainGeneratorVersion
    | InvalidPolicyGeneratorVersion
    | InvalidControlGridSide
    | CellFamilyMaskCount
    | UnknownFamilyBits(index: nat)
    | PayloadTooShort
    | InvalidLength(expected: nat, actual: nat)

  /** Bits 0 to 4 are the five known families. */
  predicate KnownFamilies(mask: u16) { mask < 32 }

  predicate ValidPolicy(p: EnvironmentPolicy) {
    && p.version == VERSION
    && p.terrainGeneratorVersion != 0
    && p.policyGeneratorVersion != 0
    && T.MIN_SIDE <= p.side <= T.MAX_SIDE
    && |p.cellFamilyMasks| == T.CellCount(p.side)
    && forall i :: 0 <= i < |p.cellFamilyMasks| ==> KnownFamilies(p.cellFamilyMasks[i])
  }

  /** What each refusal says about the policy. */
  predicate Violates(p: EnvironmentPolicy, e: PolicyError) {
    match e
    case UnsupportedVersion => p.version != VERSION
    case InvalidTerrainGeneratorVersion => p.terrainGeneratorVersion == 0
    case InvalidPolicyGeneratorVersion => p.policyGeneratorVersion == 0
    case InvalidControlGridSide => !(T.MIN_SIDE <= p.side <= T.MAX_SIDE)
    case CellFamilyMaskCount => |p.cellFamilyMasks| != T.CellCount(p.side)
    case UnknownFamilyBits(i) => i < |p.cellFamilyMasks| && p.cellFamilyMasks[i] >= 32
    case _ => false
  }

  method Validate(p: EnvironmentPolicy) returns (r: Result<(), PolicyError>)
    ensures r.Ok? <==> ValidPolicy(p)
    ensures r.Err? ==> Violates(p, r.error)
    ensures r.Ok? ==> forall e :: !Violates(p, e)
  {
    if p.version != VERSION {
      return Err(UnsupportedVersion);
    }
    if p.terrainGeneratorVersion == 0 {
      return Err(InvalidTerrainGeneratorVersion);
    }
    if p.policyGeneratorVersion == 0 {
      return Err(InvalidPolicyGeneratorVersion);
    }
    if !(T.MIN_SIDE <= p.side <= T.MAX_SIDE) {
      return Err(InvalidControlGridSide);
    }
    if |p.cellFamilyMasks| != T.CellCount(p.side) {
      return Err(CellFamilyMaskCount);
    }
    for i := 0 to |p.cellFamilyMasks|
      invariant forall k :: 0 <= k < i ==> KnownFamilies(p.cellFamilyMasks[k])
    {
      if !KnownFamilies(p.cellFamilyMasks[i]) {
        return Err(UnknownFamilyBits(i));
      }
    }
    r := Ok(());
  }

  predicate Countable(p: EnvironmentPolicy) {
    |p.cellFamilyMasks| <= U16_MAX
  }

  lemma CountFits(p: EnvironmentPolicy)
    requires ValidPolicy(p)
    ensures Countable(p)
  {
    T.ProductBelow(p.side - 1, p.side - 1, T.MAX_SIDE);
  }

  function HeaderOf(p: EnvironmentPolicy): (b: Bytes)
    requires Countable(p)
    ensures |b| == HEADER_BYTES
  {
    U16Bytes(p.version) + I64Bytes(p.coord.x) + I64Bytes(p.coord.y)
    + U32Bytes(p.terrainGeneratorVersion) + U32Bytes(p.policyGeneratorVersion) + U64Bytes(p.policySeed)
    + U16Bytes(p.side) + U16Bytes(|p.cellFamilyMasks|)
  }

  function Encoding(p: EnvironmentPolicy): Bytes
    requires Countable(p)
  {
    HeaderOf(p) + Flatten(p.cellFamilyMasks, U16Bytes)
  }

  lemma EncodingShape(p: EnvironmentPolicy)
    requires Countable(p)
    ensures |Encoding(p)| == HEADER_BYTES + |p.cellFamilyMasks| * 2
    ensures Encoding(p)[..HEADER_BYTES] == HeaderOf(p)
    ensures Encoding(p)[HEADER_BYTES..] == Flatten(p.cellFamilyMasks, U16Bytes)
  {
    FlattenLength(p.cellFamilyMasks, U16Bytes, 2);
  }

  predicate HeaderAt(p: EnvironmentPolicy, payload: Bytes) {
    && FieldAt(payload, 0, 2, p.version)
    && FieldAt(payload, 2, 8, p.coord.x)
    && FieldAt(payload, 10, 8, p.coord.y)
    && FieldAt(payload, 18, 4, p.terrainGeneratorVersion)
    && FieldAt(payload, 22, 4, p.policyGeneratorVersion)
    && FieldAt(payload, 26, 8, p.policySeed)
    && FieldAt(payload, 34, 2, p.side)
    && FieldAt(payload, 36, 2, |p.cellFamilyMasks|)
  }

  /** Which bytes hold which field: the contract with the peers. */
  predicate LaidOut(p: EnvironmentPolicy, payload: Bytes) {
    && |payload| == 38 + 2 * |p.cellFamilyMasks|
    && HeaderAt(p, payload)
    && forall k :: 0 <= k < |p.cellFamilyMasks| ==> FieldAt(payload, 38 + 2 * k, 2, p.cellFamilyMasks[k])
  }

  lemma HeaderPlaced(p: EnvironmentPolicy, payload: Bytes)
    requires Countable(p) && HEADER_BYTES <= |payload| && payload[..HEADER_BYTES] == HeaderOf(p)
    ensures HeaderAt(p, payload)
  {
    var h := HeaderOf(p);
    assert payload[0..2] == h[0..2] == U16Bytes(p.version);
    assert payload[2..10] == h[2..10] == I64Bytes(p.coord.x);
    assert payload[10..18] == h[10..18] == I64Bytes(p.coord.y);
    assert payload[18..22] == h[18..22] == U32Bytes(p.terrainGeneratorVersion);
    assert payload[22..26] == h[22..26] == U32Bytes(p.policyGeneratorVersion);
    assert payload[26..34] == h[26..34] == U64Bytes(p.policySeed);
    assert payload[34..36] == h[34..36] == U16Bytes(p.side);
    assert payload[36..38] == h[36..38] == U16Bytes(|p.cellFamilyMasks|);
    HeaderFields(p, payload);
  }

  lemma HeaderFields(p: EnvironmentPolicy, payload: Bytes)
    requires Countable(p) && HEADER_BYTES <= |payload|
    requires payload[0..2] == U16Bytes(p.version) && payload[2..10] == I64Bytes(p.coord.x)
    requires payload[10..18] == I64Bytes(p.coord.y) && payload[18..22] == U32Bytes(p.terrainGeneratorVersion)
    requires payload[22..26] == U32Bytes(p.policyGeneratorVersion) && payload[26..34] == U64Bytes(p.policySeed)
    requires payload[34..36] == U16Bytes(p.side) && payload[36..38] == U16Bytes(|p.cellFamilyMasks|)
    ensures HeaderAt(p, payload)
  {
    U16Field(payload, 0, p.version);
    I64Field(payload, 2, p.coord.x);
    I64Field(payload, 10, p.coord.y);
    U32Field(payload, 18, p.terrainGeneratorVersion);
    U32Field(payload, 22, p.policyGeneratorVersion);
    U64Field(payload, 26, p.policySeed);
    U16Field(payload, 34, p.side);
    U16Field(payload, 36, |p.cellFamilyMasks|);
  }

  lemma MaskRecord(masks: seq<u16>, k: nat)
    requires k < |masks|
    ensures |Flatten(masks, U16Bytes)| == 2 * |masks|
    ensures Flatten(masks, U16Bytes)[2 * k..2 * k + 2] == U16Bytes(masks[k])
  {
    RecordOfFlatten(masks, U16Bytes, 2, k);
  }

  lemma MaskPlaced(masks: seq<u16>, body: Bytes, payload: Bytes, k: nat)
    requires k < |masks| && |payload| == 38 + 2 * |masks| && |body| == 2 * |masks|
    requires payload[38..] == body && body[2 * k..2 * k + 2] == U16Bytes(masks[k])
    ensures FieldAt(payload, 38 + 2 * k, 2, masks[k])
  {
    SliceOfSlice(payload, 38, |payload|, 2 * k, 2 * k + 2);
    U16Field(payload, 38 + 2 * k, masks[k]);
  }

  lemma EncodingLaidOut(p: EnvironmentPolicy)
    requires Countable(p)
    ensures LaidOut(p, Encoding(p))
  {
    EncodingShape(p);
    HeaderPlaced(p, Encoding(p));
    forall k | 0 <= k < |p.cellFamilyMasks|
      ensures FieldAt(Encoding(p), 38 + 2 * k, 2, p.cellFamilyMasks[k])
    {
      MaskRecord(p.cellFamilyMasks, k);
      MaskPlaced(p.cellFamilyMasks, Flatten(p.cellFamilyMasks, U16Bytes), Encoding(p), k);
    }
  }

  lemma SameHeader(p: EnvironmentPolicy, a: Bytes, b: Bytes)
    requires HeaderAt(p, a) && HeaderAt(p, b)
    ensures forall i :: 0 <= i < 38 ==> a[i] == b[i]
  {
    SameField(a, b, 0, 2, p.version);
    SameField(a, b, 2, 8, p.coord.x);
    SameField(a, b, 10, 8, p.coord.y);
    SameField(a, b, 18, 4, p.terrainGeneratorVersion);
    SameField(a, b, 22, 4, p.policyGeneratorVersion);
    SameField(a, b, 26, 8, p.policySeed);
    SameField(a, b, 34, 2, p.side);
    SameField(a, b, 36, 2, |p.cellFamilyMasks|);
  }

  /** The layout determines the payload. */
  lemma LayoutDetermines(p: EnvironmentPolicy, a: Bytes, b: Bytes)
    requires LaidOut(p, a) && LaidOut(p, b)
    ensures a == b
  {
    SameHeader(p, a, b);
    forall i | 38 <= i < |a|
      ensures a[i] == b[i]
    {
      var k := (i - 38) / 2;
      SameField(a, b, 38 + 2 * k, 2, p.cellFamilyMasks[k]);
    }
  }

  lemma LayoutUnique(payload: Bytes)
    ensures forall p :: Countable(p) && LaidOut(p, payload) ==> Encoding(p) == payload
  {
    forall p | Countable(p) && LaidOut(p, payload)
      ensures Encoding(p) == payload
    {
      EncodingLaidOut(p);
      LayoutDetermines(p, Encoding(p), payload);
    }
  }

  lemma HeaderInjective(p: EnvironmentPolicy, q: EnvironmentPolicy)
    requires Countable(p) && Countable(q) && HeaderOf(p) == HeaderOf(q)
    ensures p.(cellFamilyMasks := q.cellFamilyMasks) == q && |p.cellFamilyMasks| == |q.cellFamilyMasks|
  {
    var a, b := HeaderOf(p), HeaderOf(q);
    assert U16Bytes(p.version) == a[0..2] == b[0..2] == U16Bytes(q.version);
    assert I64Bytes(p.coord.x) == a[2..10] == b[2..10] == I64Bytes(q.coord.x);
    assert I64Bytes(p.coord.y) == a[10..18] == b[10..18] == I64Bytes(q.coord.y);
    assert U32Bytes(p.terrainGeneratorVersion) == a[18..22] == b[18..22] == U32Bytes(q.terrainGeneratorVersion);
    assert U32Bytes(p.policyGeneratorVersion) == a[22..26] == b[22..26] == U32Bytes(q.policyGeneratorVersion);
    assert U64Bytes(p.policySeed) == a[26..34] == b[26..34] == U64Bytes(q.policySeed);
    assert U16Bytes(p.side) == a[34..36] == b[34..36] == U16Bytes(q.side);
    assert U16Bytes(|p.cellFamilyMasks|) == a[36..38] == b[36..38] == U16Bytes(|q.cellFamilyMasks|);
    U16Injective(p.version, q.version);
    I64Injective(p.coord.x, q.coord.x);
    I64Injective(p.coord.y, q.coord.y);
    U32Injective(p.terrainGeneratorVersion, q.terrainGeneratorVersion);
    U32Injective(p.policyGeneratorVersion, q.policyGeneratorVersion);
    U64Injective(p.policySeed, q.policySeed);
    U16Injective(p.side, q.side);
    U16Injective(|p.cellFamilyMasks|, |q.cellFamilyMasks|);
  }

  /** No encoding is a prefix of another one: equal encodings come from equal policies, and a
      proper prefix or extension of an encoding encodes nothing. */
  lemma EncodingPrefixFree(p: EnvironmentPolicy, q: EnvironmentPolicy)
    requires Countable(p) && Countable(q)
    requires Encoding(p) <= Encoding(q)
    ensures p == q
  {
    EncodingShape(p);
    EncodingShape(q);
    assert HeaderOf(p) == Encoding(q)[..HEADER_BYTES];
    HeaderInjective(p, q);
    assert Encoding(p) == Encoding(q);
    forall x: u16, y: u16 | x in p.cellFamilyMasks && y in q.cellFamilyMasks && U16Bytes(x) == U16Bytes(y)
      ensures x == y
    {
      U16Injective(x, y);
    }
    FlattenInjective(p.cellFamilyMasks, q.cellFamilyMasks, U16Bytes, 2);
  }

  method EncodeWire(p: EnvironmentPolicy) returns (r: Result<Bytes, PolicyError>)
    ensures r.Ok? <==> ValidPolicy(p)
    ensures r.Ok? ==> LaidOut(p, r.value)
  {
    var validated := Validate(p);
    if validated.Err? {
      return Err(validated.error);
    }
    CountFits(p);
    var bytes: Bytes := U16Bytes(p.version);
    bytes := bytes + I64Bytes(p.coord.x);
    bytes := bytes + I64Bytes(p.coord.y);
    bytes := bytes + U32Bytes(p.terrainGeneratorVersion);
    bytes := bytes + U32Bytes(p.policyGeneratorVersion);
    bytes := bytes + U64Bytes(p.policySeed);
    bytes := bytes + U16Bytes(p.side);
    bytes := bytes + U16Bytes(|p.cellFamilyMasks|);
    for i := 0 to |p.cellFamilyMasks|
      invariant bytes == HeaderOf(p) + Flatten(p.cellFamilyMasks[..i], U16Bytes)
    {
      assert p.cellFamilyMasks[..i + 1][..i] == p.cellFamilyMasks[..i];
      bytes := bytes + U16Bytes(p.cellFamilyMasks[i]);
    }
    assert p.cellFamilyMasks[..|p.cellFamilyMasks|] == p.cellFamilyMasks;
    EncodingLaidOut(p);
    r := Ok(bytes);
  }

  lemma CountInHeader(p: EnvironmentPolicy)
    requires Countable(p)
    ensures |Encoding(p)| == HEADER_BYTES + |p.cellFamilyMasks| * 2
    ensures Encoding(p)[36..38] == U16Bytes(|p.cellFamilyMasks|)
  {
    EncodingShape(p);
    assert Encoding(p)[36..38] == HeaderOf(p)[36..38];
  }

  method ReadMasks(payload: Bytes, count: nat) returns (masks: seq<u16>)
    requires |payload| == HEADER_BYTES + count * 2
    ensures |masks| == count
    ensures Flatten(masks, U16Bytes) == payload[HEADER_BYTES..]
  {
    masks := [];
    var offset: int := HEADER_BYTES;
    for i := 0 to count
      invariant |masks| == i && offset == HEADER_BYTES + i * 2
      invariant Flatten(masks, U16Bytes) == payload[HEADER_BYTES..offset]
    {
      var mask := ReadU16(payload[offset..offset + 2]);
      assert (masks + [mask])[..i] == masks;
      assert payload[HEADER_BYTES..offset + 2] == payload[HEADER_BYTES..offset] + U16Bytes(mask);
      masks := masks + [mask];
      offset := offset + 2;
    }
    assert payload[HEADER_BYTES..offset] == payload[HEADER_BYTES..];
  }

  /** The policy spelled out by a header, given the masks that follow it. */
  function ReadHeader(h: Bytes, masks: seq<u16>): EnvironmentPolicy
    requires |h| == HEADER_BYTES
  {
    EnvironmentPolicy(
      ReadU16(h[0..2]), Point(ReadI64(h[2..10]), ReadI64(h[10..18])), ReadU32(h[18..22]),
      ReadU32(h[22..26]), ReadU64(h[26..34]), ReadU16(h[34..36]), masks)
  }

  lemma HeaderWritten(h: Bytes, masks: seq<u16>)
    requires |h| == HEADER_BYTES && |masks| == ReadU16(h[36..38])
    ensures HeaderOf(ReadHeader(h, masks)) == h
  {
    assert h == h[0..2] + h[2..10] + h[10..18] + h[18..22] + h[22..26] + h[26..34] + h[34..36] + h[36..38];
  }

  /** Accepts exactly the payloads in which a valid policy is laid out, and returns that policy. */
  method DecodeWire(payload: Bytes) returns (r: Result<EnvironmentPolicy, PolicyError>)
    ensures r.Ok? ==> ValidPolicy(r.value) && LaidOut(r.value, payload)
    ensures forall p :: ValidPolicy(p) && LaidOut(p, payload) ==> r == Ok(p)
    ensures r == Err(PayloadTooShort) <==> |payload| < 38
    ensures r.Err? && r.error.InvalidLength? ==>
              r.error == InvalidLength(38 + 2 * (payload[36] as int + 256 * payload[37] as int), |payload|)
  {
    LayoutUnique(payload);
    forall p | ValidPolicy(p) ensures Countable(p) { CountFits(p); }
    if |payload| < HEADER_BYTES {
      forall p | Countable(p) ensures Encoding(p) != payload { EncodingShape(p); }
      return Err(PayloadTooShort);
    }
    var header := payload[..HEADER_BYTES];
    var count: nat := ReadU16(payload[36..38]);
    U16Value(payload[36..38]);
    var expected := HEADER_BYTES + count * 2;
    if |payload| != expected {
      forall p | Countable(p)
        ensures Encoding(p) != payload
      {
        CountInHeader(p);
        U16Injective(count, |p.cellFamilyMasks|);
      }
      return Err(InvalidLength(expected, |payload|));
    }
    var masks := ReadMasks(payload, count);
    assert header[36..38] == payload[36..38];
    HeaderWritten(header, masks);
    var policy := ReadHeader(header, masks);
    assert Encoding(policy) == header + payload[HEADER_BYTES..] == payload;
    forall p | Countable(p) && Encoding(p) == payload
      ensures p == policy
    {
      EncodingPrefixFree(p, policy);
    }
    EncodingLaidOut(policy);
    var validated := Validate(policy);
    if validated.Err? {
      return Err(validated.error);
    }
    r := Ok(policy);
  }
}
