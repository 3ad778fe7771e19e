/** The bytes of a bitmap word, as bit_set, bit_reset and bit_test treat them. */
module Bitmaps {
  type Bitmap = s: seq<bv8> | |s| == 8 witness [0, 0, 0, 0, 0, 0, 0, 0]

  const EMPTY: Bitmap := [0, 0, 0, 0, 0, 0, 0, 0]

  /** 1 << r. */
  function Mask(r: nat): bv8
    requires r < 8
  {
    if r < 4 then (if r < 2 then (if r == 0 then 1 else 2) else (if r == 2 then 4 else 8))
    else (if r < 6 then (if r == 4 then 16 else 32) else (if r == 6 then 64 else 128))
  }

  predicate ByteBit(b: bv8, r: nat)
    requires r < 8
  {
    b & Mask(r) != 0
  }

  function ByteSet(b: bv8, r: nat): bv8
    requires r < 8
  {
    b | Mask(r)
  }

  function ByteReset(b: bv8, r: nat): bv8
    requires r < 8
  {
    b & !Mask(r)
  }

  predicate BitTest(m: Bitmap, k: nat)
    requires k < 64
  {
    ByteBit(m[k / 8], k % 8)
  }

  function BitSet(m: Bitmap, k: nat): Bitmap
    requires k < 64
  {
    m[k / 8 := ByteSet(m[k / 8], k % 8)]
  }

  function BitReset(m: Bitmap, k: nat): Bitmap
    requires k < 64
  {
    m[k / 8 := ByteReset(m[k / 8], k % 8)]
  }

  /** Bit r is the one that a shift by r brings to the end. */
  lemma TestsShifted(b: bv8, r: nat)
    requires r < 8
    ensures ByteBit(b, r) <==> (b >> r) & 1 == 1
  {
    if r == 0 {} else if r == 1 {} else if r == 2 {} else if r == 3 {} else if r == 4 {} else if r == 5 {} else if r == 6 {} else {}
  }

  /** bit_test in terms of the bytes: bit k is bit k % 8 of byte k / 8. */
  lemma BitInByte(m: Bitmap, k: nat)
    requires k < 64
    ensures BitTest(m, k) <==> (m[k / 8] >> k % 8) & 1 == 1
  {
    TestsShifted(m[k / 8], k % 8);
  }

  lemma Masks(r: nat, s: nat)
    requires r < 8 && s < 8
    ensures Mask(r) & Mask(s) == if r == s then Mask(r) else 0
    ensures Mask(r) != 0
  {}

  lemma OneBit(b: bv8, x: bv8, y: bv8)
    requires x == y || x & y == 0
    ensures x == y && y != 0 ==> (b | x) & y != 0 && (b & !x) & y == 0
    ensures x & y == 0 ==> (b | x) & y == b & y && (b & !x) & y == b & y
  {}

  lemma ByteBits(b: bv8, r: nat, s: nat)
    requires r < 8 && s < 8
    ensures ByteBit(ByteSet(b, r), s) <==> r == s || ByteBit(b, s)
    ensures ByteBit(ByteReset(b, r), s) <==> r != s && ByteBit(b, s)
  {
    Masks(r, s);
    OneBit(b, Mask(r), Mask(s));
    hide Mask;
  }

  /** bit_set and bit_reset change the one bit they name. */
  lemma BitTests(m: Bitmap, k: nat)
    requires k < 64
    ensures forall j: nat :: j < 64 ==> (BitTest(BitSet(m, k), j) <==> j == k || BitTest(m, j))
    ensures forall j: nat :: j < 64 ==> (BitTest(BitReset(m, k), j) <==> j != k && BitTest(m, j))
  {
    hide BitTest, BitSet, BitReset;
    forall j: nat | j < 64
      ensures BitTest(BitSet(m, k), j) <==> j == k || BitTest(m, j)
      ensures BitTest(BitReset(m, k), j) <==> j != k && BitTest(m, j)
    {
      BitTestAt(m, k, j);
    }
  }

  lemma BitTestAt(m: Bitmap, k: nat, j: nat)
    requires k < 64 && j < 64
    ensures BitTest(BitSet(m, k), j) <==> j == k || BitTest(m, j)
    ensures BitTest(BitReset(m, k), j) <==> j != k && BitTest(m, j)
  {
    hide ByteBit, ByteSet, ByteReset;
    if j / 8 == k / 8 {
      ByteBits(m[k / 8], k % 8, j % 8);
      assert j % 8 == k % 8 <==> j == k;
    }
  }

  lemma EmptyTests()
    ensures forall k: nat :: k < 64 ==> !BitTest(EMPTY, k)
  {}
}
