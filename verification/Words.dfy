/** Machine words and the arithmetic the relay uses on them. */
module Words {

  const U32_MAX: nat := 0xFFFF_FFFF
  const U64_MAX: nat := 0xFFFF_FFFF_FFFF_FFFF
  const TWO_32: nat := 0x1_0000_0000

  type u32 = x: nat | x <= U32_MAX
  type u64 = x: nat | x <= U64_MAX

  datatype Option<+T> = None | Some(value: T)

  function Max(a: nat, b: nat): nat {
    if a < b then b else a
  }

  /** `saturating_sub` on unsigned words. */
  function SatSub(a: nat, b: nat): nat {
    if a < b then 0 else a - b
  }

  /** `wrapping_add(1)` on `u32`. */
  function WrapInc32(x: u32): u32 {
    if x == U32_MAX then 0 else x + 1
  }

  /** A `u64` cast to `usize` on the wasm32 target keeps the low 32 bits. */
  function AsUsize(x: nat): nat {
    x % TWO_32
  }
}
