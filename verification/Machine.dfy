/** Machine words as bounded integers, and the checked, saturating and wrapping
    operations that the Rust and C sources apply to them. */
module Machine {
  const U8_MAX: int := 0xFF
  const U16_MAX: int := 0xFFFF
  const U32_MAX: int := 0xFFFF_FFFF
  const U64_MAX: int := 0xFFFF_FFFF_FFFF_FFFF

  type u8 = x: int | 0 <= x <= 0xFF
  type u16 = x: int | 0 <= x <= 0xFFFF
  type u32 = x: int | 0 <= x <= 0xFFFF_FFFF
  type u64 = x: int | 0 <= x <= 0xFFFF_FFFF_FFFF_FFFF

  type i16 = x: int | -0x8000 <= x <= 0x7fff
  type i32 = x: int | -0x8000_0000 <= x <= 0x7fff_ffff

  datatype Option<+T> = None | Some(value: T)

  datatype Result<+T, +E> = Ok(value: T) | Err(error: E)

  function Lookup<K, V>(m: map<K, V>, key: K): Option<V> { if key in m then Some(m[key]) else None }

  function Min(a: int, b: int): int { if a <= b then a else b }

  function Max(a: int, b: int): int { if a >= b then a else b }

  function AbsDiff(a: int, b: int): nat { if a >= b then a - b else b - a }

  /** `saturating_sub` of unsigned words. */
  function SatSub(a: nat, b: nat): nat { if a >= b then a - b else 0 }

  function SatAdd16(a: u16, b: u16): u16 { Min(a + b, U16_MAX) }

  function SatAdd32(a: u32, b: u32): u32 { Min(a + b, U32_MAX) }

  function SatAdd64(a: u64, b: u64): u64 { Min(a + b, U64_MAX) }

  function WrapAdd32(a: u32, b: u32): u32 { (a + b) % 0x1_0000_0000 }

  /** `wrapping_add(1).max(1)`: the counter skips zero when it wraps. */
  function NextNonzero64(a: u64): u64 { if a == U64_MAX then 1 else a + 1 }
}
