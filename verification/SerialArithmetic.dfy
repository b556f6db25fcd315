/** Wrapping sequence numbers (serial arithmetic, section 3.2 of RFC 1982): the
    models count with unbounded integers, and these lemmas say when the source's
    fixed-width comparisons agree. */
module SerialArithmetic {
  const WRAP16: int := 0x1_0000
  const HALF16: int := 0x8000
  const WRAP32: int := 0x1_0000_0000
  const HALF32: int := 0x8000_0000

  /** Int16(bitPattern: b &- a) of two u16 values: from -HALF16 to HALF16 - 1. */
  function Distance16(a: int, b: int): int {
    var d := (b - a) % WRAP16;
    if d < HALF16 then d else d - WRAP16
  }

  /** Int32(bitPattern: b &- a) of two u32 values. */
  function Distance32(a: int, b: int): int {
    var d := (b - a) % WRAP32;
    if d < HALF32 then d else d - WRAP32
  }

  /** Inside a half-range window the wrapped distance is the true one. */
  lemma Distance16IsExact(x: int, y: int)
    requires -HALF16 <= y - x < HALF16
    ensures Distance16(x % WRAP16, y % WRAP16) == y - x
  {
  }

  lemma Distance32IsExact(x: int, y: int)
    requires -HALF32 <= y - x < HALF32
    ensures Distance32(x % WRAP32, y % WRAP32) == y - x
  {
  }

  /** Within one half-range window the raw u32 numbers also name the positions:
      a dictionary keyed by them has one entry per position, and serial order
      is the order of the positions. */
  lemma SerialOrder32(x: int, y: int)
    requires -HALF32 < y - x < HALF32
    ensures x % WRAP32 == y % WRAP32 <==> x == y
    ensures Distance32(y % WRAP32, x % WRAP32) < 0 <==> x < y
  {
    Distance32IsExact(y, x);
  }
}
