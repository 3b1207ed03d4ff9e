/** The VM's single value type: a 32-bit signed word (Go `int32`), with the
    two's-complement wrap-around that Go applies on conversion and addition. */
module Words {

  /** `VMWord` in the source: opcode, operand, stack value and address alike. */
  newtype Word = x: int | -0x8000_0000 <= x < 0x8000_0000

  /** Number of distinct words, 2^32. */
  const MODULUS: int := 0x1_0000_0000

  predicate InRange(x: int) {
    -0x8000_0000 <= x < 0x8000_0000
  }

  /** Go's conversion of an integer to `int32`: keep the low 32 bits and read
      them as two's complement. */
  function Wrap(x: int): (w: Word)
    ensures (w as int - x) % MODULUS == 0
    ensures InRange(x) ==> w as int == x
  {
    ((x + 0x8000_0000) % MODULUS - 0x8000_0000) as Word
  }

  /** Go `int32` addition, which wraps instead of trapping. */
  function Add(a: Word, b: Word): (r: Word)
    ensures (r as int - (a as int + b as int)) % MODULUS == 0
    ensures InRange(a as int + b as int) ==> r as int == a as int + b as int
    ensures a as int + b as int >= 0x8000_0000 ==> r as int == a as int + b as int - MODULUS
    ensures a as int + b as int < -0x8000_0000 ==> r as int == a as int + b as int + MODULUS
  {
    Wrap(a as int + b as int)
  }
}
