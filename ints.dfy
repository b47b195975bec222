/** Fixed-width unsigned integers of the C++ source, written out on unbounded ints. */
module Ints {

  const Pow8: int := 0x100
  const Pow16: int := 0x1_0000
  const Pow32: int := 0x1_0000_0000

  type u8 = x: int | 0 <= x < Pow8
  type u16 = x: int | 0 <= x < Pow16
  type u32 = x: int | 0 <= x < Pow32

  /** The value an arithmetic result has once stored in a `uint32_t` (modular wrap-around). */
  function Wrap32(x: int): (r: u32)
    ensures 0 <= x < Pow32 ==> r == x
    ensures -Pow32 <= x < 0 ==> r == x + Pow32
    ensures Pow32 <= x < 2 * Pow32 ==> r == x - Pow32
  {
    x % Pow32
  }

  /** The value an arithmetic result has once stored in a `uint16_t` (truncation to the low 16 bits). */
  function Wrap16(x: int): (r: u16)
    ensures 0 <= x < Pow16 ==> r == x
    ensures -Pow16 <= x < 0 ==> r == x + Pow16
  {
    x % Pow16
  }

  function Min(a: int, b: int): int { if a <= b then a else b }
  function Max(a: int, b: int): int { if a >= b then a else b }
}

/** The process-wide screen dimensions, fixed once at start-up (`Screen screen(480, 272)`). */
module Screen {
  import opened Ints

  const Width: u32 := 480
  const Height: u32 := 272
}
