/** Disk blocks as the storage stack sees them: BSIZE bytes, read and written whole. */
module Blocks {
  const BSIZE: nat := 512

  newtype byte = x: int | 0 <= x < 256

  /** A block's contents; always BSIZE long on a disk. */
  type Block = seq<byte>

  datatype Option<+T> = None | Some(value: T)

  const ZeroBlock: Block := Zeros(BSIZE)

  function Zeros(n: nat): (b: Block)
    ensures |b| == n && forall i :: 0 <= i < n ==> b[i] == 0
  {
    if n == 0 then [] else Zeros(n - 1) + [0]
  }

  const UINT_RANGE: int := 0x1_0000_0000

  /** The i-th little-endian 32-bit word of a block. */
  function GetWord(b: Block, i: nat): (w: int)
    requires 4 * i + 4 <= |b|
    ensures 0 <= w < UINT_RANGE
  {
    b[4 * i] as int + 256 * (b[4 * i + 1] as int) + 65536 * (b[4 * i + 2] as int) + 16777216 * (b[4 * i + 3] as int)
  }

  function SetWord(b: Block, i: nat, w: int): (b': Block)
    requires 4 * i + 4 <= |b| && 0 <= w < UINT_RANGE
    ensures |b'| == |b|
  {
    b[4 * i := (w % 256) as byte]
     [4 * i + 1 := (w / 256 % 256) as byte]
     [4 * i + 2 := (w / 65536 % 256) as byte]
     [4 * i + 3 := (w / 16777216) as byte]
  }

  /** A stored word reads back, and no other word of the block changes. */
  lemma SetWordGet(b: Block, i: nat, w: int, j: nat)
    requires 4 * i + 4 <= |b| && 4 * j + 4 <= |b| && 0 <= w < UINT_RANGE
    ensures GetWord(SetWord(b, i, w), j) == if i == j then w else GetWord(b, j)
  {
    if i == j {
      BytesOfWord(w);
    } else {
      assert forall k :: 4 * j <= k < 4 * j + 4 ==> SetWord(b, i, w)[k] == b[k];
    }
  }

  lemma BytesOfWord(w: int)
    requires 0 <= w < UINT_RANGE
    ensures w % 256 + 256 * (w / 256 % 256) + 65536 * (w / 65536 % 256) + 16777216 * (w / 16777216) == w
  {
  }

  /** The bytes of a word, lowest first. */
  lemma WordBytes(b: Block, i: nat)
    requires 4 * i + 4 <= |b|
    ensures var w := GetWord(b, i);
      && w % 256 == b[4 * i] as int && w / 256 % 256 == b[4 * i + 1] as int
      && w / 65536 % 256 == b[4 * i + 2] as int && w / 16777216 == b[4 * i + 3] as int
  {
    FourBytes(b[4 * i] as int, b[4 * i + 1] as int, b[4 * i + 2] as int, b[4 * i + 3] as int);
  }

  lemma FourBytes(p: int, q: int, r: int, t: int)
    requires 0 <= p < 256 && 0 <= q < 256 && 0 <= r < 256 && 0 <= t < 256
    ensures var w := p + 256 * q + 65536 * r + 16777216 * t;
      w % 256 == p && w / 256 % 256 == q && w / 65536 % 256 == r && w / 16777216 == t
  {
    var u := r + 256 * t;
    var v := q + 256 * u;
    var w := p + 256 * v;
    LowByte(p, v);
    LowByte(q, u);
    LowByte(r, t);
    assert w / 256 / 256 == w / 65536 && w / 65536 / 256 == w / 16777216;
  }

  lemma LowByte(p: int, v: int)
    requires 0 <= p < 256
    ensures (p + 256 * v) % 256 == p && (p + 256 * v) / 256 == v
  {
  }

  /** Storing a word changes its four bytes only. */
  lemma SetWordOutside(b: Block, i: nat, w: int, x: nat)
    requires 4 * i + 4 <= |b| && 0 <= w < UINT_RANGE && x < |b| && !(4 * i <= x < 4 * i + 4)
    ensures SetWord(b, i, w)[x] == b[x]
  {
  }

  lemma ZeroWord(i: nat)
    requires 4 * i + 4 <= BSIZE
    ensures GetWord(ZeroBlock, i) == 0
  {
  }

  // ---------------------------------------------------------------- bits

  function Pow2(n: nat): (p: int)
    ensures p >= 1
  {
    if n == 0 then 1 else 2 * Pow2(n - 1)
  }

  /** Bit k of x: x & (1 << k) is not zero. */
  predicate BitOf(x: int, k: nat)
    decreases k
  {
    if k == 0 then x % 2 == 1 else BitOf(x / 2, k - 1)
  }

  /** x | (1 << k) for v, x & ~(1 << k) otherwise. */
  function WithBit(x: int, k: nat, v: bool): (y: int)
    decreases k
  {
    if k == 0 then x / 2 * 2 + (if v then 1 else 0)
    else WithBit(x / 2, k - 1, v) * 2 + x % 2
  }

  lemma {:induction false} WithBitRange(x: int, k: nat, v: bool, n: nat)
    requires 0 <= x < Pow2(n) && k < n
    ensures 0 <= WithBit(x, k, v) < Pow2(n)
  {
    if k > 0 {
      WithBitRange(x / 2, k - 1, v, n - 1);
    }
  }

  /** Writing bit k leaves every other bit as it was. */
  lemma {:induction false} WithBitOf(x: int, k: nat, v: bool, j: nat)
    requires 0 <= x
    ensures BitOf(WithBit(x, k, v), j) == if j == k then v else BitOf(x, j)
  {
    if k > 0 {
      assert WithBit(x, k, v) / 2 == WithBit(x / 2, k - 1, v);
      if j > 0 {
        WithBitOf(x / 2, k - 1, v, j - 1);
      }
    } else if j > 0 {
      assert WithBit(x, 0, v) / 2 == x / 2;
    }
  }

  /** Bit i of a block, bit 0 being the lowest of byte 0. */
  predicate GetBit(b: Block, i: nat)
    requires i < 8 * |b|
  {
    BitOf(b[i / 8] as int, i % 8)
  }

  function Weight(on: bool, w: int): int
  {
    if on then w else 0
  }

  /** A byte is the sum of its bits: bit 8 * j + k of a block counts 2^k in byte j. */
  lemma ByteIsItsBits(b: Block, j: nat)
    requires j < |b|
    ensures b[j] as int ==
      Weight(GetBit(b, 8 * j), 1) + Weight(GetBit(b, 8 * j + 1), 2) + Weight(GetBit(b, 8 * j + 2), 4)
      + Weight(GetBit(b, 8 * j + 3), 8) + Weight(GetBit(b, 8 * j + 4), 16) + Weight(GetBit(b, 8 * j + 5), 32)
      + Weight(GetBit(b, 8 * j + 6), 64) + Weight(GetBit(b, 8 * j + 7), 128)
  {
    var x := b[j] as int;
    forall k | 0 <= k < 8 ensures GetBit(b, 8 * j + k) == BitOf(x, k) {
      assert (8 * j + k) / 8 == j && (8 * j + k) % 8 == k;
    }
    hide GetBit, BitOf;
    BitsSum(x, 8);
    LowBits(x);
  }

  /** The number that the lowest n bits of x spell. */
  function Low(x: int, n: nat): int
    decreases n
  {
    if n == 0 then 0 else x % 2 + 2 * Low(x / 2, n - 1)
  }

  lemma {:induction false} BitsSum(x: int, n: nat)
    requires 0 <= x < Pow2(n)
    ensures Low(x, n) == x
    decreases n
  {
    if n > 0 {
      BitsSum(x / 2, n - 1);
    }
  }

  lemma LowBits(x: int)
    ensures Low(x, 8) == Weight(BitOf(x, 0), 1) + Weight(BitOf(x, 1), 2) + Weight(BitOf(x, 2), 4)
      + Weight(BitOf(x, 3), 8) + Weight(BitOf(x, 4), 16) + Weight(BitOf(x, 5), 32)
      + Weight(BitOf(x, 6), 64) + Weight(BitOf(x, 7), 128)
  {
    hide Low, BitOf;
    LowHalf(x, 4);
    LowHalf(x / 16, 4);
    LowSplit(x);
    BitsAbove(x);
  }

  lemma LowHalf(x: int, n: nat)
    requires n == 4
    ensures Low(x, n) ==
      Weight(BitOf(x, 0), 1) + Weight(BitOf(x, 1), 2) + Weight(BitOf(x, 2), 4) + Weight(BitOf(x, 3), 8)
  {
    var y := x / 2;
    var z := y / 2;
    assert BitOf(x, 3) == BitOf(y, 2) == BitOf(z, 1) && BitOf(x, 2) == BitOf(y, 1);
    assert Low(x, 4) == x % 2 + 2 * Low(y, 3) && Low(y, 3) == y % 2 + 2 * Low(z, 2);
  }

  lemma LowSplit(x: int)
    ensures Low(x, 8) == Low(x, 4) + 16 * Low(x / 16, 4)
  {
    var x1, x2, x3 := x / 2, x / 2 / 2, x / 2 / 2 / 2;
    assert x3 / 2 == x / 16;
    assert Low(x, 8) == x % 2 + 2 * Low(x1, 7) && Low(x1, 7) == x1 % 2 + 2 * Low(x2, 6);
    assert Low(x2, 6) == x2 % 2 + 2 * Low(x3, 5) && Low(x3, 5) == x3 % 2 + 2 * Low(x / 16, 4);
    assert Low(x, 4) == x % 2 + 2 * Low(x1, 3) && Low(x1, 3) == x1 % 2 + 2 * Low(x2, 2);
    assert Low(x2, 2) == x2 % 2 + 2 * Low(x3, 1) && Low(x3, 1) == x3 % 2;
  }

  lemma BitsAbove(x: int)
    ensures BitOf(x, 4) == BitOf(x / 16, 0) && BitOf(x, 5) == BitOf(x / 16, 1)
    ensures BitOf(x, 6) == BitOf(x / 16, 2) && BitOf(x, 7) == BitOf(x / 16, 3)
  {
    BitAbove(x, 0);
    BitAbove(x, 1);
    BitAbove(x, 2);
    BitAbove(x, 3);
  }

  lemma BitAbove(x: int, k: nat)
    ensures BitOf(x, k + 4) == BitOf(x / 16, k)
  {
    var x1, x2, x3 := x / 2, x / 2 / 2, x / 2 / 2 / 2;
    assert x3 / 2 == x / 16;
    assert BitOf(x, k + 4) == BitOf(x1, k + 3) && BitOf(x1, k + 3) == BitOf(x2, k + 2);
    assert BitOf(x2, k + 2) == BitOf(x3, k + 1) && BitOf(x3, k + 1) == BitOf(x3 / 2, k);
  }

  lemma ByteWithBit(x: int, k: nat, v: bool)
    requires 0 <= x < 256 && k < 8
    ensures 0 <= WithBit(x, k, v) < 256
  {
    assert Pow2(8) == 256;
    WithBitRange(x, k, v, 8);
  }

  function SetBit(b: Block, i: nat, v: bool): (b': Block)
    requires i < 8 * |b|
    ensures |b'| == |b|
  {
    ByteWithBit(b[i / 8] as int, i % 8, v);
    b[i / 8 := WithBit(b[i / 8] as int, i % 8, v) as byte]
  }

  lemma SetBitGet(b: Block, i: nat, v: bool, j: nat)
    requires i < 8 * |b| && j < 8 * |b|
    ensures GetBit(SetBit(b, i, v), j) == if i == j then v else GetBit(b, j)
  {
    if i / 8 == j / 8 {
      WithBitOf(b[i / 8] as int, i % 8, v, j % 8);
      assert i % 8 == j % 8 ==> i == j;
    }
  }
}
