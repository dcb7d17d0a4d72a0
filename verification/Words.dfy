/** The C integer types the firmware uses, and its wrapping 32-bit arithmetic. */
module Words {
  const TWO32: int := 0x1_0000_0000

  type u8 = x: int | 0 <= x < 0x100
  type u16 = x: int | 0 <= x < 0x1_0000
  type u32 = x: int | 0 <= x < 0x1_0000_0000
  type u64 = x: int | 0 <= x < 0x1_0000_0000_0000_0000
  type i8 = x: int | -0x80 <= x < 0x80
  type i32 = x: int | -0x8000_0000 <= x < 0x8000_0000

  /** `a + b` in `uint32_t`. */
  function Add32(a: u32, b: u32): u32 {
    if a + b < 0x1_0000_0000 then a + b else a + b - 0x1_0000_0000
  }

  /** `a - b` in `uint32_t`. */
  function Sub32(a: u32, b: u32): u32 {
    if a >= b then a - b else a - b + 0x1_0000_0000
  }

  /** The cast of a `uint32_t` to `int32_t`. */
  function Signed32(a: u32): i32 {
    if a < 0x8000_0000 then a else a - 0x1_0000_0000
  }

  /** The low 32 bits of an unbounded clock or counter. */
  function Low32(t: nat): u32 {
    t % 0x1_0000_0000
  }

  /** Adding to a clock and then truncating is the wrapping addition. */
  lemma Low32Add(t: nat, d: u32)
    ensures Low32(t + d) == Add32(Low32(t), d)
  {
  }

  /**
   * The wrapping difference of two instants is the true difference reduced modulo 2^32;
   * so it never exceeds the true elapsed time, and is exact below one full wrap.
   */
  lemma ElapsedBound(now: nat, since: nat)
    requires since <= now
    ensures Sub32(Low32(now), Low32(since)) == (now - since) % TWO32
    ensures Sub32(Low32(now), Low32(since)) <= now - since
    ensures now - since < TWO32 ==> Sub32(Low32(now), Low32(since)) == now - since
  {
    var d := now - since;
    var s := Low32(since);
    assert now % TWO32 == (s + d % TWO32) % TWO32;
  }
}
