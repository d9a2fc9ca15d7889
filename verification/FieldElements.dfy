/** The numbers that 32-byte words stand for, and the bound they must respect. */
module FieldElements {
  import opened TopBytes

  /** The value of a big-endian byte string. */
  function BigEndian(bytes: seq<byte>): nat {
    if |bytes| == 0 then 0 else BigEndian(bytes[..|bytes| - 1]) * 256 + bytes[|bytes| - 1] as int
  }

  function Pow256(n: nat): nat {
    if n == 0 then 1 else 256 * Pow256(n - 1)
  }

  const TWO_254: nat := 0x40000000_00000000_00000000_00000000_00000000_00000000_00000000_00000000

  /** `BLS_MODULUS` of the Parameters section of EIP-4844. */
  const BLS_MODULUS: nat := 52435875175126190479447740508185965837690552500527637822603658699938581184513

  lemma {:induction false} BigEndianBound(bytes: seq<byte>)
    requires |bytes| > 0 && bytes[0] < 0x40
    ensures BigEndian(bytes) < 64 * Pow256(|bytes| - 1)
  {
    if |bytes| == 1 {
      assert bytes[..0] == [];
      assert BigEndian(bytes) == bytes[0] as int;
    } else {
      BigEndianBound(bytes[..|bytes| - 1]);
    }
  }

  lemma Pow256Of31()
    ensures 64 * Pow256(31) == TWO_254 < BLS_MODULUS
  {
    assert Pow256(8) == 0x1_00000000_00000000;
    assert Pow256(16) == 0x1_00000000_00000000_00000000_00000000;
    assert Pow256(24) == 0x1_00000000_00000000_00000000_00000000_00000000_00000000;
  }
}
