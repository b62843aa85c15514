/** The frontier manifest and its wire form (crates/contracts/src/frontier.rs). */
module FrontierManifestCodec {
  import opened MachineInts
  import opened WireBytes
  import opened Lattice

  const VERSION: u32 := 1
  const HEADER_BYTES: int := 26
  const QUADRANT_BYTES: int := 16

  datatype FrontierManifest = FrontierManifest(
    manifestVersion: u32,
    generatorVersion: u32,
    quadrantSizeMm: i64,
    revision: u64,
    quadrants: seq<Coord>)

  datatype ManifestError =
    | PayloadTooShort
    | InvalidLength(expected: nat, actual: nat)
    | UnsupportedVersion
    | ZeroGeneratorVersion
    | InvalidQuadrantSize
    | ZeroRevision
    | EmptyManifest
    | TooManyQuadrants
    | DuplicateQuadrant(coord: Coord)

  predicate ValidManifest(m: FrontierManifest) {
    && m.manifestVersion == VERSION
    && m.generatorVersion != 0
    && 0 < m.quadrantSizeMm
    && m.revision != 0
    && 0 < |m.quadrants| <= U16_MAX
    && NoDuplicates(m.quadrants)
  }

  /** What each refusal says about the manifest. */
  ghost predicate Violates(m: FrontierManifest, e: ManifestError) {
    match e
    case UnsupportedVersion => m.manifestVersion != VERSION
    case ZeroGeneratorVersion => m.generatorVersion == 0
    case InvalidQuadrantSize => m.quadrantSizeMm <= 0
    case ZeroRevision => m.revision == 0
    case EmptyManifest => m.quadrants == []
    case TooManyQuadrants => |m.quadrants| > U16_MAX
    case DuplicateQuadrant(c) => multiset(m.quadrants)[c] > 1
    case _ => false
  }

  lemma RepeatCounts(s: seq<Coord>, k: nat, i: nat)
    requires k < i < |s| && s[k] == s[i]
    ensures multiset(s)[s[i]] > 1
  {
    assert s == s[..i] + [s[i]] + s[i + 1..];
    assert s[i] == s[..i][k];
    assert s[i] in s[..i];
  }

  lemma {:induction false} OnceEach(s: seq<Coord>, c: Coord)
    requires NoDuplicates(s)
    ensures multiset(s)[c] <= 1
  {
    if s != [] {
      var rest, last := s[..|s| - 1], s[|s| - 1];
      OnceEach(rest, c);
      assert s == rest + [last];
    }
  }

  /** No refusal holds of a valid manifest. */
  lemma ValidViolatesNothing(m: FrontierManifest)
    requires ValidManifest(m)
    ensures forall e :: !Violates(m, e)
  {
    forall e
      ensures !Violates(m, e)
    {
      if e.DuplicateQuadrant? {
        OnceEach(m.quadrants, e.coord);
      }
    }
  }

  method Validate(m: FrontierManifest) returns (r: Result<(), ManifestError>)
    ensures r.Ok? <==> ValidManifest(m)
    ensures r.Err? ==> Violates(m, r.error)
    ensures r.Ok? ==> forall e :: !Violates(m, e)
  {
    if m.manifestVersion != VERSION {
      return Err(UnsupportedVersion);
    }
    if m.generatorVersion == 0 {
      return Err(ZeroGeneratorVersion);
    }
    if m.quadrantSizeMm <= 0 {
      return Err(InvalidQuadrantSize);
    }
    if m.revision == 0 {
      return Err(ZeroRevision);
    }
    if m.quadrants == [] {
      return Err(EmptyManifest);
    }
    if |m.quadrants| > U16_MAX {
      return Err(TooManyQuadrants);
    }
    var unique: set<Coord> := {};
    for i := 0 to |m.quadrants|
      invariant NoDuplicates(m.quadrants[..i])
      invariant forall c :: c in unique <==> c in m.quadrants[..i]
    {
      if m.quadrants[i] in unique {
        var k :| 0 <= k < i && m.quadrants[..i][k] == m.quadrants[i];
        RepeatCounts(m.quadrants, k, i);
        return Err(DuplicateQuadrant(m.quadrants[i]));
      }
      unique := unique + {m.quadrants[i]};
    }
    assert m.quadrants[..|m.quadrants|] == m.quadrants;
    ValidViolatesNothing(m);
    r := Ok(());
  }

  // ----- The wire form -----

  function QuadrantBytes(c: Coord): (b: Bytes)
    ensures |b| == QUADRANT_BYTES
  {
    I64Bytes(c.x) + I64Bytes(c.y)
  }

  function HeaderOf(m: FrontierManifest): (b: Bytes)
    requires |m.quadrants| <= U16_MAX
    ensures |b| == HEADER_BYTES
  {
    U32Bytes(m.manifestVersion) + U32Bytes(m.generatorVersion) + I64Bytes(m.quadrantSizeMm)
    + U64Bytes(m.revision) + U16Bytes(|m.quadrants|)
  }

  function Encoding(m: FrontierManifest): Bytes
    requires |m.quadrants| <= U16_MAX
  {
    HeaderOf(m) + Flatten(m.quadrants, QuadrantBytes)
  }

  lemma EncodingLength(m: FrontierManifest)
    requires |m.quadrants| <= U16_MAX
    ensures |Encoding(m)| == HEADER_BYTES + |m.quadrants| * QUADRANT_BYTES
    ensures Encoding(m)[..HEADER_BYTES] == HeaderOf(m)
    ensures Encoding(m)[HEADER_BYTES..] == Flatten(m.quadrants, QuadrantBytes)
  {
    FlattenLength(m.quadrants, QuadrantBytes, QUADRANT_BYTES);
  }

  predicate QuadrantAt(payload: Bytes, start: nat, c: Coord) {
    FieldAt(payload, start, 8, c.x) && FieldAt(payload, start + 8, 8, c.y)
  }

  /** Which bytes hold which field: the contract with the peers. */
  predicate LaidOut(m: FrontierManifest, payload: Bytes) {
    && |payload| == 26 + 16 * |m.quadrants|
    && FieldAt(payload, 0, 4, m.manifestVersion)
    && FieldAt(payload, 4, 4, m.generatorVersion)
    && FieldAt(payload, 8, 8, m.quadrantSizeMm)
    && FieldAt(payload, 16, 8, m.revision)
    && FieldAt(payload, 24, 2, |m.quadrants|)
    && forall k :: 0 <= k < |m.quadrants| ==> QuadrantAt(payload, 26 + 16 * k, m.quadrants[k])
  }

  lemma HeaderPlaced(m: FrontierManifest, payload: Bytes)
    requires |m.quadrants| <= U16_MAX && HEADER_BYTES <= |payload| && payload[..HEADER_BYTES] == HeaderOf(m)
    ensures FieldAt(payload, 0, 4, m.manifestVersion) && FieldAt(payload, 4, 4, m.generatorVersion)
    ensures FieldAt(payload, 8, 8, m.quadrantSizeMm) && FieldAt(payload, 16, 8, m.revision)
    ensures FieldAt(payload, 24, 2, |m.quadrants|)
  {
    var h := HeaderOf(m);
    assert payload[0..4] == h[0..4] == U32Bytes(m.manifestVersion);
    assert payload[4..8] == h[4..8] == U32Bytes(m.generatorVersion);
    assert payload[8..16] == h[8..16] == I64Bytes(m.quadrantSizeMm);
    assert payload[16..24] == h[16..24] == U64Bytes(m.revision);
    assert payload[24..26] == h[24..26] == U16Bytes(|m.quadrants|);
    U32Field(payload, 0, m.manifestVersion);
    U32Field(payload, 4, m.generatorVersion);
    I64Field(payload, 8, m.quadrantSizeMm);
    U64Field(payload, 16, m.revision);
    U16Field(payload, 24, |m.quadrants|);
  }

  lemma QuadrantPlaced(c: Coord, payload: Bytes, start: nat)
    requires start + QUADRANT_BYTES <= |payload|
    requires payload[start..start + QUADRANT_BYTES] == QuadrantBytes(c)
    ensures QuadrantAt(payload, start, c)
  {
    var r := payload[start..start + QUADRANT_BYTES];
    assert payload[start..start + 8] == r[..8] == I64Bytes(c.x);
    assert payload[start + 8..start + 16] == r[8..] == I64Bytes(c.y);
    I64Field(payload, start, c.x);
    I64Field(payload, start + 8, c.y);
  }

  lemma EncodingLaidOut(m: FrontierManifest)
    requires |m.quadrants| <= U16_MAX
    ensures LaidOut(m, Encoding(m))
  {
    var payload := Encoding(m);
    EncodingLength(m);
    HeaderPlaced(m, payload);
    forall k | 0 <= k < |m.quadrants|
      ensures QuadrantAt(payload, 26 + 16 * k, m.quadrants[k])
    {
      RecordOfFlatten(m.quadrants, QuadrantBytes, 16, k);
      SliceOfSlice(payload, 26, |payload|, 16 * k, 16 * k + 16);
      QuadrantPlaced(m.quadrants[k], payload, 26 + 16 * k);
    }
  }

  lemma SameHeader(m: FrontierManifest, a: Bytes, b: Bytes)
    requires LaidOut(m, a) && LaidOut(m, b)
    ensures forall i :: 0 <= i < 26 ==> a[i] == b[i]
  {
    SameField(a, b, 0, 4, m.manifestVersion);
    SameField(a, b, 4, 4, m.generatorVersion);
    SameField(a, b, 8, 8, m.quadrantSizeMm);
    SameField(a, b, 16, 8, m.revision);
    SameField(a, b, 24, 2, |m.quadrants|);
  }

  /** The layout determines the payload. */
  lemma LayoutDetermines(m: FrontierManifest, a: Bytes, b: Bytes)
    requires LaidOut(m, a) && LaidOut(m, b)
    ensures a == b
  {
    SameHeader(m, a, b);
    forall i | 26 <= i < |a|
      ensures a[i] == b[i]
    {
      var k := (i - 26) / 16;
      SameField(a, b, 26 + 16 * k, 8, m.quadrants[k].x);
      SameField(a, b, 34 + 16 * k, 8, m.quadrants[k].y);
    }
  }

  /** The header bytes fix every header field and the count. */
  lemma HeaderInjective(m: FrontierManifest, n: FrontierManifest)
    requires |m.quadrants| <= U16_MAX && |n.quadrants| <= U16_MAX
    requires HeaderOf(m) == HeaderOf(n)
    ensures m.(quadrants := n.quadrants) == n && |m.quadrants| == |n.quadrants|
  {
    var a, b := HeaderOf(m), HeaderOf(n);
    assert U32Bytes(m.manifestVersion) == a[0..4] == b[0..4] == U32Bytes(n.manifestVersion);
    assert U32Bytes(m.generatorVersion) == a[4..8] == b[4..8] == U32Bytes(n.generatorVersion);
    assert I64Bytes(m.quadrantSizeMm) == a[8..16] == b[8..16] == I64Bytes(n.quadrantSizeMm);
    assert U64Bytes(m.revision) == a[16..24] == b[16..24] == U64Bytes(n.revision);
    assert U16Bytes(|m.quadrants|) == a[24..26] == b[24..26] == U16Bytes(|n.quadrants|);
    U32Injective(m.manifestVersion, n.manifestVersion);
    U32Injective(m.generatorVersion, n.generatorVersion);
    I64Injective(m.quadrantSizeMm, n.quadrantSizeMm);
    U64Injective(m.revision, n.revision);
    U16Injective(|m.quadrants|, |n.quadrants|);
  }

  lemma QuadrantInjective(c: Coord, d: Coord)
    requires QuadrantBytes(c) == QuadrantBytes(d)
    ensures c == d
  {
    assert I64Bytes(c.x) == QuadrantBytes(c)[..8] == QuadrantBytes(d)[..8] == I64Bytes(d.x);
    assert I64Bytes(c.y) == QuadrantBytes(c)[8..] == QuadrantBytes(d)[8..] == I64Bytes(d.y);
    I64Injective(c.x, d.x);
    I64Injective(c.y, d.y);
  }

  /** No encoding is a prefix of another one: equal encodings come from equal manifests, and a
      proper prefix or extension of an encoding encodes nothing. */
  lemma EncodingPrefixFree(m: FrontierManifest, n: FrontierManifest)
    requires |m.quadrants| <= U16_MAX && |n.quadrants| <= U16_MAX
    requires Encoding(m) <= Encoding(n)
    ensures m == n
  {
    EncodingLength(m);
    EncodingLength(n);
    assert HeaderOf(m) == Encoding(n)[..HEADER_BYTES];
    HeaderInjective(m, n);
    assert Encoding(m) == Encoding(n);
    forall c, d | c in m.quadrants && d in n.quadrants && QuadrantBytes(c) == QuadrantBytes(d)
      ensures c == d
    {
      QuadrantInjective(c, d);
    }
    FlattenInjective(m.quadrants, n.quadrants, QuadrantBytes, QUADRANT_BYTES);
  }

  method WriteHeader(m: FrontierManifest) returns (bytes: Bytes)
    requires |m.quadrants| <= U16_MAX
    ensures bytes == HeaderOf(m)
  {
    bytes := U32Bytes(m.manifestVersion);
    bytes := bytes + U32Bytes(m.generatorVersion);
    bytes := bytes + I64Bytes(m.quadrantSizeMm);
    bytes := bytes + U64Bytes(m.revision);
    bytes := bytes + U16Bytes(|m.quadrants|);
  }

  method WriteQuadrants(quadrants: seq<Coord>) returns (bytes: Bytes)
    ensures bytes == Flatten(quadrants, QuadrantBytes)
  {
    bytes := [];
    for i := 0 to |quadrants|
      invariant bytes == Flatten(quadrants[..i], QuadrantBytes)
    {
      var coord := quadrants[i];
      assert quadrants[..i + 1][..i] == quadrants[..i];
      bytes := bytes + I64Bytes(coord.x) + I64Bytes(coord.y);
      assert QuadrantBytes(coord) == I64Bytes(coord.x) + I64Bytes(coord.y);
    }
    assert quadrants[..|quadrants|] == quadrants;
  }

  method Encode(m: FrontierManifest) returns (r: Result<Bytes, ManifestError>)
    ensures r.Ok? <==> ValidManifest(m)
    ensures r.Ok? ==> LaidOut(m, r.value)
  {
    var validated := Validate(m);
    if validated.Err? {
      return Err(validated.error);
    }
    var header := WriteHeader(m);
    var quadrants := WriteQuadrants(m.quadrants);
    EncodingLaidOut(m);
    r := Ok(header + quadrants);
  }

  lemma CountInHeader(m: FrontierManifest)
    requires |m.quadrants| <= U16_MAX
    ensures |Encoding(m)| == HEADER_BYTES + |m.quadrants| * QUADRANT_BYTES
    ensures Encoding(m)[24..26] == U16Bytes(|m.quadrants|)
  {
    EncodingLength(m);
    assert Encoding(m)[24..26] == HeaderOf(m)[24..26];
  }

  lemma NextQuadrantBytes(payload: Bytes, offset: nat, coord: Coord)
    requires HEADER_BYTES <= offset && offset + QUADRANT_BYTES <= |payload|
    requires coord.x == ReadI64(payload[offset..offset + 8]) && coord.y == ReadI64(payload[offset + 8..offset + 16])
    ensures payload[HEADER_BYTES..offset + QUADRANT_BYTES] == payload[HEADER_BYTES..offset] + QuadrantBytes(coord)
  {
    assert payload[offset..offset + QUADRANT_BYTES] == payload[offset..offset + 8] + payload[offset + 8..offset + 16];
  }

  method ReadQuadrants(payload: Bytes, count: nat) returns (quadrants: seq<Coord>)
    requires |payload| == HEADER_BYTES + count * QUADRANT_BYTES
    ensures |quadrants| == count
    ensures Flatten(quadrants, QuadrantBytes) == payload[HEADER_BYTES..]
  {
    quadrants := [];
    var offset: int := HEADER_BYTES;
    for i := 0 to count
      invariant |quadrants| == i && offset == HEADER_BYTES + i * QUADRANT_BYTES
      invariant Flatten(quadrants, QuadrantBytes) == payload[HEADER_BYTES..offset]
    {
      var x := ReadI64(payload[offset..offset + 8]);
      var y := ReadI64(payload[offset + 8..offset + 16]);
      var coord: Coord := Point(x, y);
      assert (quadrants + [coord])[..i] == quadrants;
      NextQuadrantBytes(payload, offset, coord);
      quadrants := quadrants + [coord];
      offset := offset + QUADRANT_BYTES;
    }
    assert payload[HEADER_BYTES..offset] == payload[HEADER_BYTES..];
  }

  /** The manifest spelled out by a header, given the quadrants that follow it. */
  function ReadHeader(h: Bytes, quadrants: seq<Coord>): FrontierManifest
    requires |h| == HEADER_BYTES
  {
    FrontierManifest(ReadU32(h[0..4]), ReadU32(h[4..8]), ReadI64(h[8..16]), ReadU64(h[16..24]), quadrants)
  }

  lemma HeaderWritten(h: Bytes, quadrants: seq<Coord>)
    requires |h| == HEADER_BYTES && |quadrants| == ReadU16(h[24..26])
    ensures HeaderOf(ReadHeader(h, quadrants)) == h
  {
    assert h == h[0..4] + h[4..8] + h[8..16] + h[16..24] + h[24..26];
  }

  lemma LayoutUnique(payload: Bytes)
    ensures forall m :: ValidManifest(m) && LaidOut(m, payload) ==> Encoding(m) == payload
  {
    forall m | ValidManifest(m) && LaidOut(m, payload)
      ensures Encoding(m) == payload
    {
      EncodingLaidOut(m);
      LayoutDetermines(m, Encoding(m), payload);
    }
  }

  /** Accepts exactly the payloads in which a valid manifest is laid out, and returns that manifest. */
  method Decode(payload: Bytes) returns (r: Result<FrontierManifest, ManifestError>)
    ensures r.Ok? ==> ValidManifest(r.value) && LaidOut(r.value, payload)
    ensures forall m :: ValidManifest(m) && LaidOut(m, payload) ==> r == Ok(m)
    ensures r == Err(PayloadTooShort) <==> |payload| < 26
    ensures r.Err? && r.error.InvalidLength? ==>
              r.error == InvalidLength(26 + 16 * (payload[24] as int + 256 * payload[25] as int), |payload|)
  {
    LayoutUnique(payload);
    if |payload| < HEADER_BYTES {
      forall m | ValidManifest(m) ensures Encoding(m) != payload { EncodingLength(m); }
      return Err(PayloadTooShort);
    }
    var header := payload[..HEADER_BYTES];
    var count: nat := ReadU16(payload[24..26]);
    U16Value(payload[24..26]);
    var expected := HEADER_BYTES + count * QUADRANT_BYTES;
    if |payload| != expected {
      forall m | ValidManifest(m)
        ensures Encoding(m) != payload
      {
        CountInHeader(m);
        U16Injective(count, |m.quadrants|);
      }
      return Err(InvalidLength(expected, |payload|));
    }
    var quadrants := ReadQuadrants(payload, count);
    assert header[24..26] == payload[24..26];
    HeaderWritten(header, quadrants);
    var manifest := ReadHeader(header, quadrants);
    assert Encoding(manifest) == header + payload[HEADER_BYTES..] == payload;
    forall m | ValidManifest(m) && Encoding(m) == payload
      ensures m == manifest
    {
      EncodingPrefixFree(m, manifest);
    }
    EncodingLaidOut(manifest);
    var validated := Validate(manifest);
    if validated.Err? {
      return Err(validated.error);
    }
    r := Ok(manifest);
  }
}
