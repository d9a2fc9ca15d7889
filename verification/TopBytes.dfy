/** The six-bit top bytes of the four words of a round and the three payload bytes spread over them. */
module TopBytes {
  newtype byte = x: int | 0 <= x < 0x100

  /** The four top bytes of a round, from its three spread payload bytes. The six low bits of `x`
      and `z` go to the first and third word, the two low halves of `y` and the two high bits of
      `x` and `z` to the others. The masks and shifts are written as arithmetic; `TopXIsMask` and
      its companions relate them to the bit operations. */
  function TopX(x: byte): byte { x % 0x40 }

  function TopXY(x: byte, y: byte): byte { y % 0x10 + x / 0x40 * 0x10 }

  function TopZ(z: byte): byte { z % 0x40 }

  function TopYZ(y: byte, z: byte): byte { y / 0x10 + z / 0x40 * 0x10 }

  /** The three spread payload bytes of a round, from its four top bytes. */
  function JoinX(a: byte, b: byte): byte { a % 0x40 + b / 0x10 % 4 * 0x40 }

  function JoinY(b: byte, d: byte): byte { b % 0x10 + d % 0x10 * 0x10 }

  function JoinZ(c: byte, d: byte): byte { c % 0x40 + d / 0x10 % 4 * 0x40 }

  lemma SpreadBytesRejoin(x: byte, y: byte, z: byte)
    ensures JoinX(TopX(x), TopXY(x, y)) == x
    ensures JoinY(TopXY(x, y), TopYZ(y, z)) == y
    ensures JoinZ(TopZ(z), TopYZ(y, z)) == z
  {
    XRejoins(x, y);
    YRejoins(x, y, z);
    ZRejoins(y, z);
  }

  lemma XRejoins(x: byte, y: byte)
    ensures JoinX(TopX(x), TopXY(x, y)) == x
  {
    var low := y % 0x10;
    var high := x / 0x40;
    assert (low + high * 0x10) / 0x10 == high;
  }

  lemma YRejoins(x: byte, y: byte, z: byte)
    ensures JoinY(TopXY(x, y), TopYZ(y, z)) == y
  {
    assert TopXY(x, y) % 0x10 == y % 0x10;
    assert TopYZ(y, z) % 0x10 == y / 0x10;
  }

  lemma ZRejoins(y: byte, z: byte)
    ensures JoinZ(TopZ(z), TopYZ(y, z)) == z
  {
    assert TopYZ(y, z) / 0x10 == z / 0x40;
  }

  lemma TopBytesAreSmall(x: byte, y: byte, z: byte)
    ensures TopX(x) < 0x40 && TopXY(x, y) < 0x40 && TopZ(z) < 0x40 && TopYZ(y, z) < 0x40
  {
  }

  // The arithmetic of the layout is the encoder's masks and shifts.

  lemma TopXIsMask(x: byte, v: bv8)
    requires x as int == v as int
    ensures TopX(x) as int == TopZ(x) as int == (v & 0x3F) as int
  {
    LowSix(v);
  }

  lemma TopXYIsMask(x: byte, y: byte, v: bv8, w: bv8)
    requires x as int == v as int && y as int == w as int
    ensures TopXY(x, y) as int == ((w & 0x0F) | ((v & 0xC0) >> 2)) as int
  {
    LowFourHighTwo(w, v);
  }

  lemma TopYZIsMask(y: byte, z: byte, v: bv8, w: bv8)
    requires y as int == v as int && z as int == w as int
    ensures TopYZ(y, z) as int == (((w & 0xC0) >> 2) | ((v & 0xF0) >> 4)) as int
  {
    HighTwoHighFour(w, v);
  }

  lemma LowSix(v: bv8)
    ensures (v & 0x3F) as int == v as int % 0x40
  {
  }

  lemma LowFourHighTwo(v: bv8, w: bv8)
    ensures ((v & 0x0F) | ((w & 0xC0) >> 2)) as int == v as int % 0x10 + w as int / 0x40 * 0x10
  {
  }

  lemma HighTwoHighFour(v: bv8, w: bv8)
    ensures (((v & 0xC0) >> 2) | ((w & 0xF0) >> 4)) as int == v as int / 0x40 * 0x10 + w as int / 0x10
  {
  }
}
