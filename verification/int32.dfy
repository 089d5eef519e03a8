/**
 * Kotlin's `Int`: a 32-bit two's-complement integer whose `+` wraps around.
 */
module Int32 {

  const MODULUS: int := 0x1_0000_0000
  const MIN: int := -0x8000_0000
  const MAX: int := 0x7FFF_FFFF

  newtype int32 = x: int | -0x8000_0000 <= x < 0x8000_0000

  /** The 32-bit value congruent to `x` modulo 2^32 (what a JVM `int` holds after overflow). */
  function Wrap(x: int): (r: int32)
    ensures (r as int - x) % MODULUS == 0
    ensures -0x8000_0000 <= x < 0x8000_0000 ==> r as int == x
  {
    ((x + 0x8000_0000) % MODULUS - 0x8000_0000) as int32
  }

  /** Kotlin `a + b` on two `Int`s. */
  function Add(a: int32, b: int32): (r: int32)
    ensures (r as int - (a as int + b as int)) % MODULUS == 0
    ensures -0x8000_0000 <= a as int + b as int < 0x8000_0000 ==> r as int == a as int + b as int
  {
    Wrap(a as int + b as int)
  }

  /** Two integers congruent modulo 2^32 wrap to the same 32-bit value. */
  lemma WrapCongruent(x: int, y: int)
    requires (x - y) % MODULUS == 0
    ensures Wrap(x) == Wrap(y)
  {
    var k := (x - y) / MODULUS;
    assert x == y + k * MODULUS;
    assert (x + 0x8000_0000) % MODULUS == (y + 0x8000_0000) % MODULUS;
  }

  /** Wrapping an intermediate result does not change the wrapped sum. */
  lemma WrapAddLeft(a: int, b: int)
    ensures Wrap(Wrap(a) as int + b) == Wrap(a + b)
  {
    WrapCongruent(Wrap(a) as int + b, a + b);
  }

  /**
   * Replacing one summand `a` of an unbounded sum by the wrapped `a + b` changes the
   * wrapped sum as adding `b` would.
   */
  lemma WrapReplaceSummand(total: int, a: int32, b: int32)
    ensures Wrap(total - a as int + Add(a, b) as int) == Wrap(total + b as int)
  {
    var sum := Add(a, b) as int;
    assert (total - a as int + sum) - (total + b as int) == sum - (a as int + b as int);
    WrapCongruent(total - a as int + sum, total + b as int);
  }
}
