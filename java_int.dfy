/** Java's 32-bit `int`: its range, its wrap-around and `Math.max`. */
module JavaInt {
  const IntMin: int := -0x8000_0000
  const IntMax: int := 0x7fff_ffff
  const Modulus: int := 0x1_0000_0000

  type int32 = x: int | IntMin <= x <= IntMax

  /** The 32-bit value Java's `int` arithmetic keeps of the mathematical result `x`. */
  function Wrap32(x: int): (r: int32)
    ensures (x - r) % Modulus == 0
    ensures IntMin <= x <= IntMax ==> r == x
  {
    (x - IntMin) % Modulus + IntMin
  }

  /** Wrapping after every `+` is the same as wrapping once at the end. */
  lemma Wrap32Add(a: int, b: int)
    ensures Wrap32(Wrap32(a) + b) == Wrap32(a + b)
  {
    var k := (a - Wrap32(a)) / Modulus;
    assert a == Wrap32(a) + k * Modulus;
    assert (Wrap32(a) + b - IntMin) == (a + b - IntMin) - k * Modulus;
  }

  /** `Math.max(int, int)`. */
  function Max(a: int32, b: int32): (r: int32)
    ensures r >= a && r >= b && (r == a || r == b)
  {
    if a >= b then a else b
  }
}
