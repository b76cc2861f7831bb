/** Machine words as ranges of the integers. */
module Words {
  type byte = b: int | 0 <= b < 256
  type int64 = x: int | -0x8000_0000_0000_0000 <= x < 0x8000_0000_0000_0000

  /** What remains of a number in a signed 64-bit word. */
  function Wrap(x: int): int64 {
    (x + 0x8000_0000_0000_0000) % 0x1_0000_0000_0000_0000 - 0x8000_0000_0000_0000
  }

  lemma WrapKeeps(x: int)
    ensures -0x8000_0000_0000_0000 <= x < 0x8000_0000_0000_0000 ==> Wrap(x) == x
    ensures Wrap(2 * x) % 2 == 0
  {
    var y := (x + 0x4000_0000_0000_0000) % 0x8000_0000_0000_0000;
    var q := (x + 0x4000_0000_0000_0000) / 0x8000_0000_0000_0000;
    assert 2 * x + 0x8000_0000_0000_0000 == q * 0x1_0000_0000_0000_0000 + 2 * y;
  }
}
