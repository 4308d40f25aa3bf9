/** Bytes and little-endian words. */
module Words {

  const U32: nat := 0x1_0000_0000

  type Byte = b: int | 0 <= b < 256

  function Word16(lo: Byte, hi: Byte): (w: nat)
    ensures w < 0x10000
  {
    lo + 256 * hi
  }

  function Word32(b0: Byte, b1: Byte, b2: Byte, b3: Byte): (w: nat)
    ensures w < 0x1_0000_0000
  {
    b0 + 256 * b1 + 0x10000 * b2 + 0x100_0000 * b3
  }

  lemma DivModUnique(n: int, d: int, q: int, r: int)
    requires 0 <= r < d && n == d * q + r
    ensures n / d == q && n % d == r
  {
    var k := n / d - q;
    assert n == d * (n / d) + n % d;
    assert d * k == r - n % d;
    assert k >= 1 ==> d * k >= d;
    assert k <= -1 ==> d * k <= -d;
  }
}
