/** Integer widths, the unit of time and powers of two. */
module Numbers {
  const U32_MAX: nat := 0xFFFF_FFFF
  const U64_MAX: nat := 0xFFFF_FFFF_FFFF_FFFF
  /** On a 64-bit machine. */
  const USIZE_MAX: nat := U64_MAX

  /** In nanoseconds. */
  const SECOND: nat := 1_000_000_000

  function Min(a: nat, b: nat): nat {
    if a < b then a else b
  }

  function Pow2(k: nat): (p: nat)
    ensures p >= 1
  {
    if k == 0 then 1 else 2 * Pow2(k - 1)
  }
}
