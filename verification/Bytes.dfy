/** Little-endian bytes, as 64-bit words lie in memory on RISC-V. */
module Bytes {

  type byte = x: int | 0 <= x < 256

  /** 256 to the power n. */
  function Pow256(n: nat): (r: nat)
    ensures r > 0
  {
    if n == 0 then 1 else 256 * Pow256(n - 1)
  }

  /** The n low-order bytes of w, least significant first. */
  function LittleEndian(w: nat, n: nat): (s: seq<byte>)
    ensures |s| == n
  {
    if n == 0 then [] else [w % 256] + LittleEndian(w / 256, n - 1)
  }

  /** The number that a little-endian byte sequence denotes. */
  function Value(s: seq<byte>): nat {
    if s == [] then 0 else s[0] + 256 * Value(s[1..])
  }

  /** Decoding inverts encoding for every number that fits. */
  lemma {:induction false} ValueOfLittleEndian(w: nat, n: nat)
    requires w < Pow256(n)
    ensures Value(LittleEndian(w, n)) == w
  {
    if n > 0 {
      assert w / 256 < Pow256(n - 1);
      ValueOfLittleEndian(w / 256, n - 1);
      assert LittleEndian(w, n)[1..] == LittleEndian(w / 256, n - 1);
    }
  }

  lemma {:induction false} ValueOfZeros(s: seq<byte>)
    requires forall k :: 0 <= k < |s| ==> s[k] == 0
    ensures Value(s) == 0
  {
    if s != [] { ValueOfZeros(s[1..]); }
  }

  lemma Pow256Of8()
    ensures Pow256(8) == 0x1_0000_0000_0000_0000
  {
    assert Pow256(4) == 0x1_0000_0000;
    assert Pow256(6) == 0x1_0000_0000_0000;
  }
}
