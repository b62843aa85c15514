/** Little-endian integers and sequences of fixed-size records, as the wire codecs lay them out. */
module WireBytes {
  import opened MachineInts

  type Bytes = seq<u8>

  // ----- Little-endian integers -----

  function Pow256(width: nat): (p: int)
    ensures 0 < p
  {
    if width == 0 then 1 else 256 * Pow256(width - 1)
  }

  lemma Pow256Values()
    ensures Pow256(0) == 1 && Pow256(1) == 0x100 && Pow256(2) == 0x1_0000 && Pow256(4) == 0x1_0000_0000
    ensures Pow256(8) == 0x1_0000_0000_0000_0000
  {
    assert Pow256(3) == 0x100_0000 && Pow256(5) == 0x100_0000_0000;
    assert Pow256(6) == 0x1_0000_0000_0000 && Pow256(7) == 0x100_0000_0000_0000;
  }

  function LeBytes(value: nat, width: nat): (b: Bytes)
    ensures |b| == width
  {
    if width == 0 then [] else [value % 256] + LeBytes(value / 256, width - 1)
  }

  function LeValue(b: Bytes): (value: nat)
    ensures value < Pow256(|b|)
  {
    if b == [] then 0 else b[0] + 256 * LeValue(b[1..])
  }

  lemma {:induction false} ReadWritten(value: nat, width: nat)
    requires value < Pow256(width)
    ensures LeValue(LeBytes(value, width)) == value
  {
    if width > 0 {
      ReadWritten(value / 256, width - 1);
      assert LeBytes(value, width)[1..] == LeBytes(value / 256, width - 1);
    }
  }

  lemma {:induction false} WriteRead(b: Bytes)
    ensures LeBytes(LeValue(b), |b|) == b
  {
    if b != [] {
      WriteRead(b[1..]);
      assert (b[0] + 256 * LeValue(b[1..])) / 256 == LeValue(b[1..]);
    }
  }

  /** Two's complement: the unsigned value with the same bits. */
  function Unsigned(x: int, width: nat): (u: nat)
    requires -Pow256(width) <= 2 * x < Pow256(width)
    ensures u < Pow256(width)
  {
    if x < 0 then x + Pow256(width) else x
  }

  function Signed(u: nat, width: nat): (x: int)
    requires u < Pow256(width)
    ensures -Pow256(width) <= 2 * x < Pow256(width)
    ensures Unsigned(x, width) == u
  {
    if 2 * u < Pow256(width) then u else u - Pow256(width)
  }

  // ----- Fields of a payload -----

  /** Bytes `start` to `start + width` hold `value`, least significant byte first: byte `i` is the
      digit of weight 256^i. Flooring makes a negative value appear in two's complement. */
  predicate FieldAt(payload: Bytes, start: nat, width: nat, value: int) {
    && start + width <= |payload|
    && forall i :: start <= i < start + width ==> payload[i] == value / Pow256(i - start) % 256
  }

  lemma QuotientUnique(a: int, d: int, q: int, r: int)
    requires 0 < d && a == q * d + r && 0 <= r < d
    ensures a / d == q
  {
    var e := a / d - q;
    assert a == d * (a / d) + a % d;
    assert d * (a / d) == d * q + d * e;
    assert d * e == r - a % d;
    assert -d < d * e < d;
    assert e > 0 ==> d * e >= d;
    assert e < 0 ==> d * e <= -d;
  }

  lemma DivideTwice(value: int, p: int)
    requires 0 < p
    ensures value / 256 / p == value / (256 * p)
  {
    var q := value / 256 / p;
    var r := value - q * (256 * p);
    assert value == 256 * (value / 256) + value % 256;
    assert value / 256 == p * q + value / 256 % p;
    assert 256 * (p * q) == q * (256 * p);
    assert r == 256 * (value / 256 % p) + value % 256;
    QuotientUnique(value, 256 * p, q, r);
  }

  lemma {:induction false} DigitOf(value: nat, width: nat, i: nat)
    requires i < width
    ensures LeBytes(value, width)[i] == value / Pow256(i) % 256
  {
    if i > 0 {
      DigitOf(value / 256, width - 1, i - 1);
      DivideTwice(value, Pow256(i - 1));
    }
  }

  lemma {:induction false} PowerSplits(width: nat, i: nat) returns (m: nat)
    requires i < width
    ensures Pow256(width) == Pow256(i) * (256 * m)
  {
    if i == 0 {
      m := Pow256(width - 1);
    } else {
      m := PowerSplits(width - 1, i - 1);
      assert 256 * (Pow256(i - 1) * (256 * m)) == (256 * Pow256(i - 1)) * (256 * m);
    }
  }

  lemma SameDigit(x: int, p: int, m: int)
    requires 0 < p
    ensures (x + p * (256 * m)) / p % 256 == x / p % 256
  {
    var q := x / p;
    assert x == p * q + x % p;
    assert x + p * (256 * m) == (q + 256 * m) * p + x % p;
    QuotientUnique(x + p * (256 * m), p, q + 256 * m, x % p);
    assert (q + 256 * m) % 256 == q % 256;
  }

  lemma SignedDigit(x: int, width: nat, i: nat)
    requires i < width && -Pow256(width) <= 2 * x < Pow256(width)
    ensures LeBytes(Unsigned(x, width), width)[i] == x / Pow256(i) % 256
  {
    DigitOf(Unsigned(x, width), width, i);
    if x < 0 {
      var m := PowerSplits(width, i);
      SameDigit(x, Pow256(i), m);
    }
  }

  /** A field's bytes are determined by its value. */
  lemma SameField(a: Bytes, b: Bytes, start: nat, width: nat, value: int)
    requires FieldAt(a, start, width, value) && FieldAt(b, start, width, value)
    ensures forall i :: start <= i < start + width ==> a[i] == b[i]
  {
  }

  lemma UnsignedField(payload: Bytes, start: nat, width: nat, value: nat)
    requires start + width <= |payload|
    ensures FieldAt(payload, start, width, value) <==> payload[start..start + width] == LeBytes(value, width)
  {
    var b := LeBytes(value, width);
    forall i: nat | i < width
      ensures b[i] == value / Pow256(i) % 256
    {
      DigitOf(value, width, i);
    }
    if FieldAt(payload, start, width, value) {
      assert forall i :: 0 <= i < width ==> payload[start..start + width][i] == payload[start + i] == b[i];
    }
    if payload[start..start + width] == b {
      assert forall i :: start <= i < start + width ==> payload[i] == b[i - start];
    }
  }

  lemma SignedField(payload: Bytes, start: nat, width: nat, value: int)
    requires start + width <= |payload| && -Pow256(width) <= 2 * value < Pow256(width)
    ensures FieldAt(payload, start, width, value)
      <==> payload[start..start + width] == LeBytes(Unsigned(value, width), width)
  {
    var b := LeBytes(Unsigned(value, width), width);
    forall i: nat | i < width
      ensures b[i] == value / Pow256(i) % 256
    {
      SignedDigit(value, width, i);
    }
    if FieldAt(payload, start, width, value) {
      assert forall i :: 0 <= i < width ==> payload[start..start + width][i] == payload[start + i] == b[i];
    }
    if payload[start..start + width] == b {
      assert forall i :: start <= i < start + width ==> payload[i] == b[i - start];
    }
  }

  // ----- The widths in use -----

  function U16Bytes(x: u16): Bytes { LeBytes(x, 2) }
  function U32Bytes(x: u32): Bytes { LeBytes(x, 4) }
  function U64Bytes(x: u64): Bytes { LeBytes(x, 8) }
  function I32Bytes(x: i32): (b: Bytes) ensures |b| == 4 { Pow256Values(); LeBytes(Unsigned(x, 4), 4) }
  function I64Bytes(x: i64): (b: Bytes) ensures |b| == 8 { Pow256Values(); LeBytes(Unsigned(x, 8), 8) }
  function I8Byte(x: i8): u8 { if x < 0 then x + 256 else x }

  function ReadU16(b: Bytes): (x: u16)
    requires |b| == 2
    ensures U16Bytes(x) == b
  {
    Pow256Values();
    WriteRead(b);
    LeValue(b)
  }

  lemma U16Value(b: Bytes)
    requires |b| == 2
    ensures ReadU16(b) == b[0] as int + 256 * b[1] as int
  {
    assert LeValue(b[1..]) == b[1] + 256 * LeValue(b[1..][1..]);
  }

  function ReadU32(b: Bytes): (x: u32)
    requires |b| == 4
    ensures U32Bytes(x) == b
  {
    Pow256Values();
    WriteRead(b);
    LeValue(b)
  }

  function ReadU64(b: Bytes): (x: u64)
    requires |b| == 8
    ensures U64Bytes(x) == b
  {
    Pow256Values();
    WriteRead(b);
    LeValue(b)
  }

  function ReadI32(b: Bytes): (x: i32)
    requires |b| == 4
    ensures I32Bytes(x) == b
  {
    Pow256Values();
    WriteRead(b);
    Signed(LeValue(b), 4)
  }

  function ReadI64(b: Bytes): (x: i64)
    requires |b| == 8
    ensures I64Bytes(x) == b
  {
    Pow256Values();
    WriteRead(b);
    Signed(LeValue(b), 8)
  }

  function ReadI8(b: u8): (x: i8)
    ensures I8Byte(x) == b
  {
    if b < 128 then b else b - 256
  }

  /** The bytes written for a number are its field. */
  lemma U16Field(payload: Bytes, start: nat, x: u16)
    requires start + 2 <= |payload| && payload[start..start + 2] == U16Bytes(x)
    ensures FieldAt(payload, start, 2, x)
  {
    UnsignedField(payload, start, 2, x);
  }

  lemma U32Field(payload: Bytes, start: nat, x: u32)
    requires start + 4 <= |payload| && payload[start..start + 4] == U32Bytes(x)
    ensures FieldAt(payload, start, 4, x)
  {
    UnsignedField(payload, start, 4, x);
  }

  lemma U64Field(payload: Bytes, start: nat, x: u64)
    requires start + 8 <= |payload| && payload[start..start + 8] == U64Bytes(x)
    ensures FieldAt(payload, start, 8, x)
  {
    UnsignedField(payload, start, 8, x);
  }

  lemma I32Field(payload: Bytes, start: nat, x: i32)
    requires start + 4 <= |payload| && payload[start..start + 4] == I32Bytes(x)
    ensures FieldAt(payload, start, 4, x)
  {
    Pow256Values();
    SignedField(payload, start, 4, x);
  }

  lemma I64Field(payload: Bytes, start: nat, x: i64)
    requires start + 8 <= |payload| && payload[start..start + 8] == I64Bytes(x)
    ensures FieldAt(payload, start, 8, x)
  {
    Pow256Values();
    SignedField(payload, start, 8, x);
  }

  lemma I8Field(payload: Bytes, start: nat, x: i8)
    requires start < |payload| && payload[start] == I8Byte(x)
    ensures FieldAt(payload, start, 1, x)
  {
  }

  /** Each width is written injectively. */
  lemma U16Injective(x: u16, y: u16)
    ensures U16Bytes(x) == U16Bytes(y) ==> x == y
  {
    Pow256Values();
    ReadWritten(x, 2);
    ReadWritten(y, 2);
  }

  lemma U32Injective(x: u32, y: u32)
    ensures U32Bytes(x) == U32Bytes(y) ==> x == y
  {
    Pow256Values();
    ReadWritten(x, 4);
    ReadWritten(y, 4);
  }

  lemma U64Injective(x: u64, y: u64)
    ensures U64Bytes(x) == U64Bytes(y) ==> x == y
  {
    Pow256Values();
    ReadWritten(x, 8);
    ReadWritten(y, 8);
  }

  lemma I32Injective(x: i32, y: i32)
    ensures I32Bytes(x) == I32Bytes(y) ==> x == y
  {
    Pow256Values();
    ReadWritten(Unsigned(x, 4), 4);
    ReadWritten(Unsigned(y, 4), 4);
  }

  lemma I64Injective(x: i64, y: i64)
    ensures I64Bytes(x) == I64Bytes(y) ==> x == y
  {
    Pow256Values();
    ReadWritten(Unsigned(x, 8), 8);
    ReadWritten(Unsigned(y, 8), 8);
  }

  // ----- Sequences of fixed-size records -----

  function Flatten<T>(xs: seq<T>, enc: T -> Bytes): Bytes {
    if xs == [] then [] else Flatten(xs[..|xs| - 1], enc) + enc(xs[|xs| - 1])
  }

  lemma MultipleStep(k: nat, width: nat)
    ensures (k + 1) * width == k * width + width
  {
  }

  lemma {:induction false} FlattenLength<T>(xs: seq<T>, enc: T -> Bytes, width: nat)
    requires forall x :: x in xs ==> |enc(x)| == width
    ensures |Flatten(xs, enc)| == |xs| * width
  {
    if xs != [] {
      FlattenLength(xs[..|xs| - 1], enc, width);
      MultipleStep(|xs| - 1, width);
    }
  }

  /** Records written injectively at a fixed width are determined by the bytes. */
  lemma {:induction false} FlattenInjective<T>(xs: seq<T>, ys: seq<T>, enc: T -> Bytes, width: nat)
    requires |xs| == |ys|
    requires forall x :: x in xs || x in ys ==> |enc(x)| == width
    requires forall x, y :: x in xs && y in ys && enc(x) == enc(y) ==> x == y
    requires Flatten(xs, enc) == Flatten(ys, enc)
    ensures xs == ys
  {
    if xs != [] {
      var n := |xs| - 1;
      var a, b := Flatten(xs[..n], enc), Flatten(ys[..n], enc);
      FlattenLength(xs[..n], enc, width);
      FlattenLength(ys[..n], enc, width);
      assert a == (a + enc(xs[n]))[..|a|] == (b + enc(ys[n]))[..|b|] == b;
      assert enc(xs[n]) == (a + enc(xs[n]))[|a|..] == (b + enc(ys[n]))[|b|..] == enc(ys[n]);
      FlattenInjective(xs[..n], ys[..n], enc, width);
      assert xs == xs[..n] + [xs[n]] && ys == ys[..n] + [ys[n]];
    }
  }

  /** The `k`-th record of a flattened sequence. */
  lemma {:induction false} RecordOfFlatten<T>(xs: seq<T>, enc: T -> Bytes, width: nat, k: nat)
    requires k < |xs|
    requires forall x :: x in xs ==> |enc(x)| == width
    ensures |Flatten(xs, enc)| == |xs| * width && k * width + width <= |xs| * width
    ensures Flatten(xs, enc)[k * width..k * width + width] == enc(xs[k])
  {
    var n := |xs| - 1;
    FlattenLength(xs, enc, width);
    FlattenLength(xs[..n], enc, width);
    MultipleStep(n, width);
    if k < n {
      RecordOfFlatten(xs[..n], enc, width, k);
    }
  }

  lemma SliceOfSlice(b: Bytes, lo: nat, hi: nat, from: nat, until: nat)
    requires lo <= hi <= |b| && from <= until <= hi - lo
    ensures b[lo..hi][from..until] == b[lo + from..lo + until]
  {
    var body := b[lo..hi];
    assert forall i :: from <= i < until ==> body[i] == b[lo + i];
  }
}
