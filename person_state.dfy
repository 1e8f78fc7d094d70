// The per-person record: how long the person has been covered, and how many
// cells of an ongoing jump are still to go.

module PersonStates {

  const U32_LIMIT: int := 0x1_0000_0000

  type u32 = n: int | 0 <= n < U32_LIMIT
  type i32 = n: int | -0x8000_0000 <= n < 0x8000_0000

  /** A plain value: copies are independent of each other. */
  datatype PersonState = PersonState(waterTicks: u32, jumpVelocity: i32)

  /** A person just placed: not covered, not jumping. */
  function New(): (s: PersonState)
    ensures s.waterTicks == 0 && s.jumpVelocity == 0
  {
    PersonState(0, 0)
  }

  /** The counter increment as an unsigned 32-bit addition (wrapping). */
  function WrappingIncrement(n: u32): (r: u32)
    ensures n < U32_LIMIT - 1 ==> r == n + 1
    ensures n == U32_LIMIT - 1 ==> r == 0
  {
    (n + 1) % U32_LIMIT
  }
}
