/** Java's 32-bit `int`: the counters and scores of the behaviour are Java ints,
    so their increments wrap around and the `(int)` cast of a wider value keeps
    only the low 32 bits. */
module Int32 {

  const MIN: int := -0x8000_0000
  const MAX: int := 0x7FFF_FFFF

  newtype i32 = x: int | -0x8000_0000 <= x < 0x8000_0000

  /** Java's `x++` on an int: the largest value wraps to the smallest. */
  function Inc(x: i32): (r: i32)
    ensures x as int < MAX ==> r as int == x as int + 1
    ensures x as int == MAX ==> r as int == MIN
  {
    if x == 0x7FFF_FFFF then -0x8000_0000 else x + 1
  }

  /** Java's `(int)` narrowing cast of an integer of any width. */
  function Narrow(x: int): (r: i32)
    ensures MIN <= x <= MAX ==> r as int == x
    ensures (x - r as int) % 0x1_0000_0000 == 0
  {
    var low := (x + 0x8000_0000) % 0x1_0000_0000;
    (low - 0x8000_0000) as i32
  }
}
