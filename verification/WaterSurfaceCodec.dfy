/** The water-surface presentation and its wire form
    (crates/contracts/src/water_surface_presentation.rs). */
module WaterSurfaceCodec {
  import opened MachineInts
  import opened WireBytes
  import opened Lattice
  import T = TerrainAuthorityCodec

  const VERSION: u16 := 1
  const HEADER_BYTES: int := 30
  const SAMPLE_BYTES: int := 8

  datatype WaterKind = Dry | Lake | River

  datatype WaterSample = WaterSample(kind: WaterKind, flowX: i8, flowY: i8, surfaceMm: i32)

  datatype WaterSurface = WaterSurface(
    version: u16,
    coord: Coord,
    terrainGeneratorVersion: u32,
    hydrologyGeneratorVersion: u32,
    side: u16,
    samples: seq<WaterSample>)

  datatype WaterError =
    | UnsupportedVersion
    | InvalidTerrainGeneratorVersion
    | InvalidHydrologyGeneratorVersion
    | InvalidControlGridSide
    | SampleCountMismatch
    | NonCanonicalDrySample(index: nat)
    | LakeHasFlow(index: nat)
    | PayloadTooShort
    | InvalidLength(expected: nat, actual: nat)
    | UnknownSampleKind(index: nat, raw: u8)
    | NonZeroReservedByte(index: nat, raw: u8)

  predicate Canonical(s: WaterSample) {
    match s.kind
    case Dry => s.surfaceMm == 0 && s.flowX == 0 && s.flowY == 0
    case Lake => s.flowX == 0 && s.flowY == 0
    case River => true
  }

  predicate ValidSurface(w: WaterSurface) {
    && w.version == VERSION
    && w.terrainGeneratorVersion != 0
    && w.hydrologyGeneratorVersion != 0
    && T.MIN_SIDE <= w.side <= T.MAX_SIDE
    && |w.samples| == T.SampleCount(w.side)
    && forall i :: 0 <= i < |w.samples| ==> Canonical(w.samples[i])
  }

  /** What each refusal says about the surface. */
  predicate Violates(w: WaterSurface, e: WaterError) {
    match e
    case UnsupportedVersion => w.version != VERSION
    case InvalidTerrainGeneratorVersion => w.terrainGeneratorVersion == 0
    case InvalidHydrologyGeneratorVersion => w.hydrologyGeneratorVersion == 0
    case InvalidControlGridSide => !(T.MIN_SIDE <= w.side <= T.MAX_SIDE)
    case SampleCountMismatch => |w.samples| != T.SampleCount(w.side)
    case NonCanonicalDrySample(i) =>
      i < |w.samples| && w.samples[i].kind == Dry && w.samples[i] != WaterSample(Dry, 0, 0, 0)
    case LakeHasFlow(i) =>
      i < |w.samples| && w.samples[i].kind == Lake && (w.samples[i].flowX != 0 || w.samples[i].flowY != 0)
    case _ => false
  }

  method Validate(w: WaterSurface) returns (r: Result<(), WaterError>)
    ensures r.Ok? <==> ValidSurface(w)
    ensures r.Err? ==> Violates(w, r.error)
    ensures r.Ok? ==> forall e :: !Violates(w, e)
  {
    if w.version != VERSION {
      return Err(UnsupportedVersion);
    }
    if w.terrainGeneratorVersion == 0 {
      return Err(InvalidTerrainGeneratorVersion);
    }
    if w.hydrologyGeneratorVersion == 0 {
      return Err(InvalidHydrologyGeneratorVersion);
    }
    if !(T.MIN_SIDE <= w.side <= T.MAX_SIDE) {
      return Err(InvalidControlGridSide);
    }
    if |w.samples| != T.SampleCount(w.side) {
      return Err(SampleCountMismatch);
    }
    for i := 0 to |w.samples|
      invariant forall k :: 0 <= k < i ==> Canonical(w.samples[k])
    {
      var sample := w.samples[i];
      match sample.kind {
        case Dry =>
          if sample.surfaceMm != 0 || sample.flowX != 0 || sample.flowY != 0 {
            return Err(NonCanonicalDrySample(i));
          }
        case Lake =>
          if sample.flowX != 0 || sample.flowY != 0 {
            return Err(LakeHasFlow(i));
          }
        case River =>
      }
    }
    r := Ok(());
  }

  predicate Countable(w: WaterSurface) {
    |w.samples| <= U16_MAX
  }

  lemma CountFits(w: WaterSurface)
    requires ValidSurface(w)
    ensures Countable(w)
  {
    T.ProductBelow(w.side, w.side, T.MAX_SIDE);
  }

  function KindByte(k: WaterKind): u8 {
    match k case Dry => 0 case Lake => 1 case River => 2
  }

  function SampleBytes(s: WaterSample): (b: Bytes)
    ensures |b| == SAMPLE_BYTES
  {
    [KindByte(s.kind), I8Byte(s.flowX), I8Byte(s.flowY), 0] + I32Bytes(s.surfaceMm)
  }

  function HeaderOf(w: WaterSurface): (b: Bytes)
    requires Countable(w)
    ensures |b| == HEADER_BYTES
  {
    U16Bytes(w.version) + I64Bytes(w.coord.x) + I64Bytes(w.coord.y)
    + U32Bytes(w.terrainGeneratorVersion) + U32Bytes(w.hydrologyGeneratorVersion)
    + U16Bytes(w.side) + U16Bytes(|w.samples|)
  }

  function Encoding(w: WaterSurface): Bytes
    requires Countable(w)
  {
    HeaderOf(w) + Flatten(w.samples, SampleBytes)
  }

  lemma EncodingShape(w: WaterSurface)
    requires Countable(w)
    ensures |Encoding(w)| == HEADER_BYTES + |w.samples| * SAMPLE_BYTES
    ensures Encoding(w)[..HEADER_BYTES] == HeaderOf(w)
    ensures Encoding(w)[HEADER_BYTES..] == Flatten(w.samples, SampleBytes)
  {
    FlattenLength(w.samples, SampleBytes, SAMPLE_BYTES);
  }

  predicate HeaderAt(w: WaterSurface, payload: Bytes) {
    && FieldAt(payload, 0, 2, w.version)
    && FieldAt(payload, 2, 8, w.coord.x)
    && FieldAt(payload, 10, 8, w.coord.y)
    && FieldAt(payload, 18, 4, w.terrainGeneratorVersion)
    && FieldAt(payload, 22, 4, w.hydrologyGeneratorVersion)
    && FieldAt(payload, 26, 2, w.side)
    && FieldAt(payload, 28, 2, |w.samples|)
  }

  /** Kind, two flow bytes, a reserved zero byte, and the surface. */
  predicate SampleAt(s: WaterSample, payload: Bytes, start: nat) {
    && start + 8 <= |payload|
    && (payload[start] == 0 <==> s.kind == Dry)
    && (payload[start] == 1 <==> s.kind == Lake)
    && (payload[start] == 2 <==> s.kind == River)
    && FieldAt(payload, start + 1, 1, s.flowX)
    && FieldAt(payload, start + 2, 1, s.flowY)
    && payload[start + 3] == 0
    && FieldAt(payload, start + 4, 4, s.surfaceMm)
  }

  /** Which bytes hold which field: the contract with the peers. */
  predicate LaidOut(w: WaterSurface, payload: Bytes) {
    && |payload| == 30 + 8 * |w.samples|
    && HeaderAt(w, payload)
    && forall k :: 0 <= k < |w.samples| ==> SampleAt(w.samples[k], payload, 30 + 8 * k)
  }

  lemma HeaderPlaced(w: WaterSurface, payload: Bytes)
    requires Countable(w) && HEADER_BYTES <= |payload| && payload[..HEADER_BYTES] == HeaderOf(w)
    ensures HeaderAt(w, payload)
  {
    var h := HeaderOf(w);
    assert payload[0..2] == h[0..2] == U16Bytes(w.version);
    assert payload[2..10] == h[2..10] == I64Bytes(w.coord.x);
    assert payload[10..18] == h[10..18] == I64Bytes(w.coord.y);
    assert payload[18..22] == h[18..22] == U32Bytes(w.terrainGeneratorVersion);
    assert payload[22..26] == h[22..26] == U32Bytes(w.hydrologyGeneratorVersion);
    assert payload[26..28] == h[26..28] == U16Bytes(w.side);
    assert payload[28..30] == h[28..30] == U16Bytes(|w.samples|);
    HeaderFields(w, payload);
  }

  lemma HeaderFields(w: WaterSurface, payload: Bytes)
    requires Countable(w) && HEADER_BYTES <= |payload|
    requires payload[0..2] == U16Bytes(w.version) && payload[2..10] == I64Bytes(w.coord.x)
    requires payload[10..18] == I64Bytes(w.coord.y) && payload[18..22] == U32Bytes(w.terrainGeneratorVersion)
    requires payload[22..26] == U32Bytes(w.hydrologyGeneratorVersion)
    requires payload[26..28] == U16Bytes(w.side) && payload[28..30] == U16Bytes(|w.samples|)
    ensures HeaderAt(w, payload)
  {
    U16Field(payload, 0, w.version);
    I64Field(payload, 2, w.coord.x);
    I64Field(payload, 10, w.coord.y);
    U32Field(payload, 18, w.terrainGeneratorVersion);
    U32Field(payload, 22, w.hydrologyGeneratorVersion);
    U16Field(payload, 26, w.side);
    U16Field(payload, 28, |w.samples|);
  }

  lemma SampleFields(s: WaterSample, payload: Bytes, start: nat)
    requires start + SAMPLE_BYTES <= |payload|
    requires payload[start] == KindByte(s.kind) && payload[start + 3] == 0
    requires payload[start + 1] == I8Byte(s.flowX) && payload[start + 2] == I8Byte(s.flowY)
    requires payload[start + 4..start + 8] == I32Bytes(s.surfaceMm)
    ensures SampleAt(s, payload, start)
  {
    I8Field(payload, start + 1, s.flowX);
    I8Field(payload, start + 2, s.flowY);
    I32Field(payload, start + 4, s.surfaceMm);
  }

  lemma SamplePlaced(s: WaterSample, payload: Bytes, start: nat)
    requires start + SAMPLE_BYTES <= |payload|
    requires payload[start..start + SAMPLE_BYTES] == SampleBytes(s)
    ensures SampleAt(s, payload, start)
  {
    var r := payload[start..start + SAMPLE_BYTES];
    assert forall i :: 0 <= i < 4 ==> payload[start + i] == r[i];
    assert payload[start + 4..start + 8] == r[4..] == I32Bytes(s.surfaceMm);
    SampleFields(s, payload, start);
  }

  lemma EncodingLaidOut(w: WaterSurface)
    requires Countable(w)
    ensures LaidOut(w, Encoding(w))
  {
    var payload := Encoding(w);
    EncodingShape(w);
    HeaderPlaced(w, payload);
    forall k | 0 <= k < |w.samples|
      ensures SampleAt(w.samples[k], payload, 30 + 8 * k)
    {
      RecordOfFlatten(w.samples, SampleBytes, 8, k);
      SliceOfSlice(payload, 30, |payload|, 8 * k, 8 * k + 8);
      SamplePlaced(w.samples[k], payload, 30 + 8 * k);
    }
  }

  lemma SameHeader(w: WaterSurface, a: Bytes, b: Bytes)
    requires HeaderAt(w, a) && HeaderAt(w, b)
    ensures forall i :: 0 <= i < 30 ==> a[i] == b[i]
  {
    SameField(a, b, 0, 2, w.version);
    SameField(a, b, 2, 8, w.coord.x);
    SameField(a, b, 10, 8, w.coord.y);
    SameField(a, b, 18, 4, w.terrainGeneratorVersion);
    SameField(a, b, 22, 4, w.hydrologyGeneratorVersion);
    SameField(a, b, 26, 2, w.side);
    SameField(a, b, 28, 2, |w.samples|);
  }

  lemma SameSample(s: WaterSample, a: Bytes, b: Bytes, start: nat)
    requires SampleAt(s, a, start) && SampleAt(s, b, start)
    ensures forall i :: start <= i < start + 8 ==> a[i] == b[i]
  {
    SameField(a, b, start + 1, 1, s.flowX);
    SameField(a, b, start + 2, 1, s.flowY);
    SameField(a, b, start + 4, 4, s.surfaceMm);
  }

  /** The layout determines the payload. */
  lemma LayoutDetermines(w: WaterSurface, a: Bytes, b: Bytes)
    requires LaidOut(w, a) && LaidOut(w, b)
    ensures a == b
  {
    SameHeader(w, a, b);
    forall i | 30 <= i < |a|
      ensures a[i] == b[i]
    {
      var k := (i - 30) / 8;
      SameSample(w.samples[k], a, b, 30 + 8 * k);
    }
  }

  lemma LayoutUnique(payload: Bytes)
    ensures forall w :: Countable(w) && LaidOut(w, payload) ==> Encoding(w) == payload
  {
    forall w | Countable(w) && LaidOut(w, payload)
      ensures Encoding(w) == payload
    {
      EncodingLaidOut(w);
      LayoutDetermines(w, Encoding(w), payload);
    }
  }

  lemma HeaderInjective(v: WaterSurface, w: WaterSurface)
    requires Countable(v) && Countable(w) && HeaderOf(v) == HeaderOf(w)
    ensures v.(samples := w.samples) == w && |v.samples| == |w.samples|
  {
    var a, b := HeaderOf(v), HeaderOf(w);
    assert U16Bytes(v.version) == a[0..2] == b[0..2] == U16Bytes(w.version);
    assert I64Bytes(v.coord.x) == a[2..10] == b[2..10] == I64Bytes(w.coord.x);
    assert I64Bytes(v.coord.y) == a[10..18] == b[10..18] == I64Bytes(w.coord.y);
    assert U32Bytes(v.terrainGeneratorVersion) == a[18..22] == b[18..22] == U32Bytes(w.terrainGeneratorVersion);
    assert U32Bytes(v.hydrologyGeneratorVersion) == a[22..26] == b[22..26] == U32Bytes(w.hydrologyGeneratorVersion);
    assert U16Bytes(v.side) == a[26..28] == b[26..28] == U16Bytes(w.side);
    assert U16Bytes(|v.samples|) == a[28..30] == b[28..30] == U16Bytes(|w.samples|);
    U16Injective(v.version, w.version);
    I64Injective(v.coord.x, w.coord.x);
    I64Injective(v.coord.y, w.coord.y);
    U32Injective(v.terrainGeneratorVersion, w.terrainGeneratorVersion);
    U32Injective(v.hydrologyGeneratorVersion, w.hydrologyGeneratorVersion);
    U16Injective(v.side, w.side);
    U16Injective(|v.samples|, |w.samples|);
  }

  lemma SampleInjective(s: WaterSample, t: WaterSample)
    requires SampleBytes(s) == SampleBytes(t)
    ensures s == t
  {
    var a, b := SampleBytes(s), SampleBytes(t);
    assert KindByte(s.kind) == a[0] == b[0] == KindByte(t.kind);
    assert I8Byte(s.flowX) == a[1] == b[1] == I8Byte(t.flowX);
    assert I8Byte(s.flowY) == a[2] == b[2] == I8Byte(t.flowY);
    assert I32Bytes(s.surfaceMm) == a[4..] == b[4..] == I32Bytes(t.surfaceMm);
    I32Injective(s.surfaceMm, t.surfaceMm);
  }

  /** No encoding is a prefix of another one: equal encodings come from equal surfaces, and a
      proper prefix or extension of an encoding encodes nothing. */
  lemma EncodingPrefixFree(v: WaterSurface, w: WaterSurface)
    requires Countable(v) && Countable(w)
    requires Encoding(v) <= Encoding(w)
    ensures v == w
  {
    EncodingShape(v);
    EncodingShape(w);
    assert HeaderOf(v) == Encoding(w)[..HEADER_BYTES];
    HeaderInjective(v, w);
    assert Encoding(v) == Encoding(w);
    forall s, t | s in v.samples && t in w.samples && SampleBytes(s) == SampleBytes(t)
      ensures s == t
    {
      SampleInjective(s, t);
    }
    FlattenInjective(v.samples, w.samples, SampleBytes, SAMPLE_BYTES);
  }

  method WriteSample(sample: WaterSample) returns (bytes: Bytes)
    ensures bytes == SampleBytes(sample)
  {
    bytes := [KindByte(sample.kind)];
    bytes := bytes + [I8Byte(sample.flowX)];
    bytes := bytes + [I8Byte(sample.flowY)];
    bytes := bytes + [0];
    bytes := bytes + I32Bytes(sample.surfaceMm);
  }

  method EncodeWire(w: WaterSurface) returns (r: Result<Bytes, WaterError>)
    ensures r.Ok? <==> ValidSurface(w)
    ensures r.Ok? ==> LaidOut(w, r.value)
  {
    var validated := Validate(w);
    if validated.Err? {
      return Err(validated.error);
    }
    CountFits(w);
    var bytes: Bytes := U16Bytes(w.version);
    bytes := bytes + I64Bytes(w.coord.x);
    bytes := bytes + I64Bytes(w.coord.y);
    bytes := bytes + U32Bytes(w.terrainGeneratorVersion);
    bytes := bytes + U32Bytes(w.hydrologyGeneratorVersion);
    bytes := bytes + U16Bytes(w.side);
    bytes := bytes + U16Bytes(|w.samples|);
    for i := 0 to |w.samples|
      invariant bytes == HeaderOf(w) + Flatten(w.samples[..i], SampleBytes)
    {
      assert w.samples[..i + 1][..i] == w.samples[..i];
      var record := WriteSample(w.samples[i]);
      bytes := bytes + record;
    }
    assert w.samples[..|w.samples|] == w.samples;
    EncodingLaidOut(w);
    r := Ok(bytes);
  }

  lemma CountInHeader(w: WaterSurface)
    requires Countable(w)
    ensures |Encoding(w)| == HEADER_BYTES + |w.samples| * SAMPLE_BYTES
    ensures Encoding(w)[28..30] == U16Bytes(|w.samples|)
  {
    EncodingShape(w);
    assert Encoding(w)[28..30] == HeaderOf(w)[28..30];
  }

  /** The record bytes a decoder may reject: an unknown kind, or a reserved byte that is set. */
  predicate BadRecord(record: Bytes)
    requires |record| == SAMPLE_BYTES
  {
    record[0] > 2 || record[3] != 0
  }

  function SampleRecord(payload: Bytes, index: nat): Bytes
    requires HEADER_BYTES + index * SAMPLE_BYTES + SAMPLE_BYTES <= |payload|
  {
    payload[HEADER_BYTES + index * SAMPLE_BYTES..HEADER_BYTES + index * SAMPLE_BYTES + SAMPLE_BYTES]
  }

  lemma EncodedRecordsGood(w: WaterSurface, index: nat)
    requires Countable(w) && index < |w.samples|
    ensures |Encoding(w)| == HEADER_BYTES + |w.samples| * SAMPLE_BYTES
    ensures SampleRecord(Encoding(w), index) == SampleBytes(w.samples[index])
    ensures !BadRecord(SampleRecord(Encoding(w), index))
  {
    EncodingShape(w);
    RecordOfFlatten(w.samples, SampleBytes, SAMPLE_BYTES, index);
    SliceOfSlice(Encoding(w), 30, |Encoding(w)|, 8 * index, 8 * index + 8);
  }

  /** What a refused record holds. */
  predicate Refuses(payload: Bytes, e: WaterError) {
    match e
    case UnknownSampleKind(i, raw) => 38 + 8 * i <= |payload| && payload[30 + 8 * i] == raw && raw > 2
    case NonZeroReservedByte(i, raw) => 38 + 8 * i <= |payload| && payload[33 + 8 * i] == raw && raw != 0
    case _ => false
  }

  method ReadSample(index: nat, record: Bytes) returns (r: Result<WaterSample, WaterError>)
    requires |record| == SAMPLE_BYTES
    ensures r.Ok? ==> SampleBytes(r.value) == record
    ensures r.Err? <==> BadRecord(record)
    ensures r.Err? ==> || (r.error == UnknownSampleKind(index, record[0]) && record[0] > 2)
                       || (r.error == NonZeroReservedByte(index, record[3]) && record[3] != 0)
  {
    var kindRaw := record[0];
    if kindRaw > 2 {
      return Err(UnknownSampleKind(index, kindRaw));
    }
    var kind := if kindRaw == 0 then Dry else if kindRaw == 1 then Lake else River;
    var flowX, flowY := ReadI8(record[1]), ReadI8(record[2]);
    if record[3] != 0 {
      return Err(NonZeroReservedByte(index, record[3]));
    }
    r := Ok(WaterSample(kind, flowX, flowY, ReadI32(record[4..8])));
    assert SampleBytes(r.value) == record;
  }

  method ReadSamples(payload: Bytes, count: nat) returns (r: Result<seq<WaterSample>, WaterError>)
    requires |payload| == HEADER_BYTES + count * SAMPLE_BYTES
    ensures r.Ok? ==> |r.value| == count && Flatten(r.value, SampleBytes) == payload[HEADER_BYTES..]
    ensures r.Err? ==> Refuses(payload, r.error)
    ensures r.Err? ==> exists i :: 0 <= i < count && BadRecord(SampleRecord(payload, i))
  {
    var samples: seq<WaterSample> := [];
    var offset: int := HEADER_BYTES;
    for i := 0 to count
      invariant |samples| == i && offset == HEADER_BYTES + i * SAMPLE_BYTES
      invariant Flatten(samples, SampleBytes) == payload[HEADER_BYTES..offset]
    {
      assert payload[offset..offset + SAMPLE_BYTES] == SampleRecord(payload, i);
      var sample := ReadSample(i, payload[offset..offset + SAMPLE_BYTES]);
      if sample.Err? {
        return Err(sample.error);
      }
      assert (samples + [sample.value])[..i] == samples;
      assert payload[HEADER_BYTES..offset + SAMPLE_BYTES]
        == payload[HEADER_BYTES..offset] + payload[offset..offset + SAMPLE_BYTES];
      samples := samples + [sample.value];
      offset := offset + SAMPLE_BYTES;
    }
    assert payload[HEADER_BYTES..offset] == payload[HEADER_BYTES..];
    r := Ok(samples);
  }

  /** The surface spelled out by a header, given the samples that follow it. */
  function ReadHeader(h: Bytes, samples: seq<WaterSample>): WaterSurface
    requires |h| == HEADER_BYTES
  {
    WaterSurface(
      ReadU16(h[0..2]), Point(ReadI64(h[2..10]), ReadI64(h[10..18])), ReadU32(h[18..22]),
      ReadU32(h[22..26]), ReadU16(h[26..28]), samples)
  }

  lemma HeaderWritten(h: Bytes, samples: seq<WaterSample>)
    requires |h| == HEADER_BYTES && |samples| == ReadU16(h[28..30])
    ensures HeaderOf(ReadHeader(h, samples)) == h
  {
    assert h == h[0..2] + h[2..10] + h[10..18] + h[18..22] + h[22..26] + h[26..28] + h[28..30];
  }

  lemma BadRecordEncodesNothing(payload: Bytes, i: nat)
    requires HEADER_BYTES + i * SAMPLE_BYTES + SAMPLE_BYTES <= |payload| && BadRecord(SampleRecord(payload, i))
    ensures forall w :: Countable(w) ==> Encoding(w) != payload
  {
    forall w | Countable(w)
      ensures Encoding(w) != payload
    {
      EncodingShape(w);
      if i < |w.samples| { EncodedRecordsGood(w, i); }
    }
  }

  lemma BadLengthEncodesNothing(payload: Bytes)
    requires HEADER_BYTES <= |payload|
    requires |payload| != HEADER_BYTES + ReadU16(payload[28..30]) as int * SAMPLE_BYTES
    ensures forall w :: Countable(w) ==> Encoding(w) != payload
  {
    forall w | Countable(w)
      ensures Encoding(w) != payload
    {
      CountInHeader(w);
      U16Injective(ReadU16(payload[28..30]), |w.samples|);
    }
  }

  lemma OnlyEncoding(surface: WaterSurface)
    requires Countable(surface)
    ensures forall w :: Countable(w) && Encoding(w) == Encoding(surface) ==> w == surface
  {
    forall w | Countable(w) && Encoding(w) == Encoding(surface)
      ensures w == surface
    {
      EncodingPrefixFree(w, surface);
    }
  }

  /** Accepts exactly the payloads in which a valid surface is laid out, and returns that surface. */
  method DecodeWire(payload: Bytes) returns (r: Result<WaterSurface, WaterError>)
    ensures r.Ok? ==> ValidSurface(r.value) && LaidOut(r.value, payload)
    ensures forall w :: ValidSurface(w) && LaidOut(w, payload) ==> r == Ok(w)
    ensures r == Err(PayloadTooShort) <==> |payload| < 30
    ensures r.Err? && r.error.InvalidLength? ==>
              r.error == InvalidLength(30 + 8 * (payload[28] as int + 256 * payload[29] as int), |payload|)
    ensures r.Err? && (r.error.UnknownSampleKind? || r.error.NonZeroReservedByte?) ==> Refuses(payload, r.error)
  {
    LayoutUnique(payload);
    forall w | ValidSurface(w) ensures Countable(w) { CountFits(w); }
    if |payload| < HEADER_BYTES {
      forall w | Countable(w) ensures Encoding(w) != payload { EncodingShape(w); }
      return Err(PayloadTooShort);
    }
    var count: nat := ReadU16(payload[28..30]);
    U16Value(payload[28..30]);
    var expected := HEADER_BYTES + count * SAMPLE_BYTES;
    if |payload| != expected {
      BadLengthEncodesNothing(payload);
      return Err(InvalidLength(expected, |payload|));
    }
    var samples := ReadSamples(payload, count);
    if samples.Err? {
      ghost var i: nat :| 0 <= i < count && BadRecord(SampleRecord(payload, i));
      BadRecordEncodesNothing(payload, i);
      return Err(samples.error);
    }
    var header := payload[..HEADER_BYTES];
    assert header[28..30] == payload[28..30];
    HeaderWritten(header, samples.value);
    var surface := ReadHeader(header, samples.value);
    assert Encoding(surface) == header + payload[HEADER_BYTES..] == payload;
    OnlyEncoding(surface);
    EncodingLaidOut(surface);
    var validated := Validate(surface);
    if validated.Err? {
      return Err(validated.error);
    }
    r := Ok(surface);
  }
}
