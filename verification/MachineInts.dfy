/** The fixed-width integers of a 64-bit host, and the conversions between them. */
module MachineInts {
  import opened Status

  const TWO_63 := 0x8000_0000_0000_0000
  const TWO_64 := 0x1_0000_0000_0000_0000

  type i32 = x: int | -0x8000_0000 <= x < 0x8000_0000
  type i64 = x: int | -0x8000_0000_0000_0000 <= x < 0x8000_0000_0000_0000
  type u64 = x: int | 0 <= x < 0x1_0000_0000_0000_0000
  type usize = u64

  /** `x as i64` for an unsigned 64-bit value: the same bits read as two's complement. */
  function AsI64(x: u64): i64 {
    if x < TWO_63 then x else x - TWO_64
  }

  /** `usize::try_from` for a signed value: a negative value is refused. */
  function TryUsize(x: i64): Option<usize> {
    if x < 0 then None else Some(x)
  }

  /** `u64::try_from(x).unwrap_or_default()`: a value too wide for the wire becomes zero. */
  function ToWire(x: nat): u64 {
    if x < TWO_64 then x else 0
  }

  /** `a.checked_sub(b).unwrap_or(0)`. */
  function SubOrZero(a: nat, b: nat): nat {
    if a < b then 0 else a - b
  }

  /** Unsigned addition as a release build performs it. */
  function WrappingAdd(a: usize, b: usize): usize {
    (a + b) % TWO_64
  }
}
