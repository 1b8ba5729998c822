// Machine words and bytes, and the big-endian encodings the wire formats use.
module Words {

  const U32_LIMIT: int := 0x1_0000_0000
  const U64_LIMIT: int := 0x1_0000_0000_0000_0000

  type u32 = x: int | 0 <= x < U32_LIMIT
  type u64 = x: int | 0 <= x < U64_LIMIT
  type byte = x: int | 0 <= x < 256
  type bytes = seq<byte>

  /** A PeerId, as its bytes. */
  type Peer = bytes

  /** Rust's `wrapping_add(1)` on u32. */
  function WrapInc(x: u32): u32 {
    (x + 1) % U32_LIMIT
  }

  /** Rust's `saturating_sub` on u32. */
  function SaturatingSub(a: u32, b: u32): u32 {
    if a > b then a - b else 0
  }
}
