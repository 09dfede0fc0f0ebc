/** The wrapping 32-bit sequence space of party-shim/src/reliable.rs (serial number
    arithmetic in the sense of section 3.2 of RFC 1982), and the option-word tests. */
module SerialNumbers {

  type u8 = x: int | 0 <= x < 0x100
  type u32 = x: int | 0 <= x < 0x1_0000_0000
  type u64 = x: int | 0 <= x < 0x1_0000_0000_0000_0000

  const U64_MAX: u64 := 0xFFFF_FFFF_FFFF_FFFF

  type Bytes = seq<u8>

  function WrapSub(a: u32, b: u32): u32 {
    if b <= a then a - b else a - b + 0x1_0000_0000
  }

  function WrapInc(a: u32): u32 {
    if a == 0xFFFF_FFFF then 0 else a + 1
  }

  /** Reinterpretation of a u32 as a two's-complement i32. */
  function AsI32(a: u32): int {
    if a < 0x8000_0000 then a else a - 0x1_0000_0000
  }

  predicate SeqAfter(a: u32, b: u32) {
    AsI32(WrapSub(a, b)) > 0
  }

  predicate SeqLe(a: u32, b: u32) {
    !SeqAfter(a, b)
  }

  function SatAdd(a: u64, b: u64): u64 {
    if a + b <= U64_MAX then a + b else U64_MAX
  }

  function SatSub(a: u64, b: u64): u64 {
    if b <= a then a - b else 0
  }

  // Bits 0x1, 0x2 and 0x10 of the option word.
  predicate Guaranteed(options: u32) {
    options % 2 == 1
  }

  predicate Sequential(options: u32) {
    options / 2 % 2 == 1
  }

  predicate LazyAck(options: u32) {
    options / 16 % 2 == 1
  }

  /** The low 32 bits of an unbounded counter. */
  function Low32(a: nat): u32 {
    a % 0x1_0000_0000
  }

  /** Comparing the low words of two counters less than 2^32 apart agrees with comparing the
      counters exactly when the distance lies in the half-open window [-2^31, 2^31). */
  lemma SeqAfterAgrees(a: nat, b: nat)
    requires -0x1_0000_0000 < a - b < 0x1_0000_0000
    ensures (SeqAfter(Low32(a), Low32(b)) <==> a > b) <==> -0x8000_0000 <= a - b < 0x8000_0000
  {
  }
}
