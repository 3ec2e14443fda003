/** Big-endian integers of any width: the byte order of frames and of checkpoints. */
module Endian {
  import opened Common

  function Pow256(n: nat): (p: int)
    ensures p >= 1
  {
    if n == 0 then 1 else 256 * Pow256(n - 1)
  }

  /** The low `n` bytes of `value`, most significant first. */
  function Big(value: nat, n: nat): (bytes: Bytes)
    ensures |bytes| == n
  {
    if n == 0 then [] else Big(value / 256, n - 1) + [value % 256]
  }

  /** The number written by `bytes`, most significant first. */
  function Value(bytes: Bytes): (value: nat)
  {
    if bytes == [] then 0 else Value(bytes[..|bytes| - 1]) * 256 + bytes[|bytes| - 1]
  }

  lemma {:induction false} ValueOfBig(value: nat, n: nat)
    requires value < Pow256(n)
    ensures Value(Big(value, n)) == value
  {
    if n > 0 {
      ValueOfBig(value / 256, n - 1);
      assert Big(value, n)[..n - 1] == Big(value / 256, n - 1);
    }
  }

  lemma {:induction false} BigOfValue(bytes: Bytes)
    ensures Value(bytes) < Pow256(|bytes|)
    ensures Big(Value(bytes), |bytes|) == bytes
  {
    if bytes != [] {
      BigOfValue(bytes[..|bytes| - 1]);
    }
  }

  lemma Widths()
    ensures Pow256(0) == 1 && Pow256(1) == 0x100 && Pow256(2) == 0x1_0000 && Pow256(3) == 0x100_0000
    ensures Pow256(4) == U32_LIMIT && Pow256(5) == 0x100_0000_0000 && Pow256(6) == 0x1_0000_0000_0000
    ensures Pow256(7) == 0x100_0000_0000_0000 && Pow256(8) == U64_LIMIT
  {
    assert Pow256(3) == 256 * Pow256(2) && Pow256(5) == 256 * Pow256(4);
    assert Pow256(6) == 256 * Pow256(5) && Pow256(7) == 256 * Pow256(6);
  }

  /** `value >> 8 * k` on an unsigned integer. */
  function ShiftRight(value: nat, k: nat): nat {
    if k == 0 then value else ShiftRight(value, k - 1) / 256
  }

  /** Shifting bytes out from the top, as the append loops do, yields exactly `Big`. */
  lemma NextByte(value: nat, n: nat, i: nat)
    requires i < n
    ensures Big(ShiftRight(value, n - i - 1), i + 1)
         == Big(ShiftRight(value, n - i), i) + [ShiftRight(value, n - i - 1) % 256]
  {
    assert ShiftRight(value, n - i) == ShiftRight(value, n - i - 1) / 256;
  }
}
