/** Signed 64-bit arithmetic that wraps around. */
module Int64 {
  const TWO63 := 0x8000_0000_0000_0000
  const TWO64 := 0x1_0000_0000_0000_0000

  /** The value of an integer in a signed 64-bit variable. */
  function Wrap(x: int): int { (x + TWO63) % TWO64 - TWO63 }

  lemma ModShift(x: int, k: int)
    ensures (x - k * TWO64) % TWO64 == x % TWO64
  {
  }

  lemma WrapAdd(a: int, b: int)
    ensures Wrap(Wrap(a) + b) == Wrap(a + b)
  {
    var k := (a + TWO63) / TWO64;
    assert Wrap(a) + b + TWO63 == (a + b + TWO63) - k * TWO64;
    ModShift(a + b + TWO63, k);
  }

  /** A value is kept exactly when it fits. */
  lemma WrapExactly(x: int)
    ensures Wrap(x) == x <==> -TWO63 <= x < TWO63
  {
  }
}
