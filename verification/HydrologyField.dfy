/** What the hydrology field is drawn from: hashes, and buckets of their bits
    (crates/terrain/src/hydrology.rs). */
module HydrologyField {
  import opened MachineInts

  /** The three hashes of one world, as any functions to 64-bit values. */
  datatype Field = Field(
    lakeHash: (i64, i64) -> u64,
    bandHash: i64 -> u64,
    meanderHash: (i64, i64) -> u64)

  const P8: int := 0x100
  const P16: int := 0x1_0000
  const P24: int := 0x100_0000
  const P32: int := 0x1_0000_0000
  const P40: int := 0x100_0000_0000

  /** A value folded into `lo..=hi`. */
  function SignedBucket(value: int, lo: int, hi: int): (b: int)
    requires lo <= hi
    ensures lo <= b <= hi
  {
    lo + value % (hi - lo + 1)
  }
}
