/**
The on-disk file system as values: the free bitmap, inodes with direct and indirect
blocks, which block belongs to which inode, and the byte string a file denotes.
Blocks are as bread shows them.
*/
module FsLayout {
  import opened Blocks

  const NDIRECT: int := 12
  const NINDIRECT: int := 128
  const MAXFILE: int := 140
  const BPB: int := 4096
  const IPB: int := 8

  /** Slots that can hold a block number: 12 direct, the indirect block, its 128 entries. */
  const NSLOT: int := 141

  /** The superblock: blocks below datastart hold metadata. */
  datatype Super = Super(size: int, ninodes: int, inodestart: int, bmapstart: int, datastart: int)

  datatype Inode = Inode(size: int, addrs: seq<int>)

  /** The slot of a file's bn-th data block. */
  function DataSlot(bn: int): int
  {
    if bn < NDIRECT then bn else bn + 1
  }

  function BBlock(sb: Super, b: int): int
  {
    b / BPB + sb.bmapstart
  }

  function IBlock(sb: Super, inum: int): int
  {
    inum / IPB + sb.inodestart
  }

  ghost predicate Geometry(sb: Super, blk: seq<Block>)
  {
    && 0 < sb.inodestart && 0 <= sb.ninodes && sb.inodestart + sb.ninodes / IPB + 1 <= sb.bmapstart
    && sb.bmapstart + sb.size / BPB + 1 <= sb.datastart <= sb.size == |blk|
    && 0 < sb.datastart && sb.size <= UINT_RANGE
    && forall b :: 0 <= b < |blk| ==> |blk[b]| == BSIZE
  }

  /** Block b is marked in the bitmap. */
  predicate Used(sb: Super, blk: seq<Block>, b: int)
  {
    && 0 <= b && 0 <= BBlock(sb, b) < |blk| && |blk[BBlock(sb, b)]| == BSIZE
    && GetBit(blk[BBlock(sb, b)], b % BPB)
  }

  /** The block number in slot k of an inode, 0 for none. */
  function Ref(blk: seq<Block>, ip: Inode, k: int): int
    requires |ip.addrs| == NDIRECT + 1 && 0 <= k < NSLOT
  {
    var ind := ip.addrs[NDIRECT];
    if k <= NDIRECT then ip.addrs[k]
    else if ind <= 0 || ind >= |blk| || |blk[ind]| != BSIZE then 0
    else GetWord(blk[ind], k - NDIRECT - 1)
  }

  /** balloc's effect: the bit set, the block zeroed. */
  function Alloced(sb: Super, blk: seq<Block>, b: int): seq<Block>
    requires 0 <= b < |blk| && 0 <= BBlock(sb, b) < |blk| && |blk[BBlock(sb, b)]| == BSIZE
  {
    blk[BBlock(sb, b) := SetBit(blk[BBlock(sb, b)], b % BPB, true)][b := ZeroBlock]
  }

  /** bfree's effect. */
  function Freed(sb: Super, blk: seq<Block>, b: int): seq<Block>
    requires 0 <= b && 0 <= BBlock(sb, b) < |blk| && |blk[BBlock(sb, b)]| == BSIZE
  {
    blk[BBlock(sb, b) := SetBit(blk[BBlock(sb, b)], b % BPB, false)]
  }

  lemma BitmapBlock(sb: Super, blk: seq<Block>, b: int)
    requires Geometry(sb, blk) && 0 <= b < sb.size
    ensures 0 <= BBlock(sb, b) < sb.datastart
  {
  }

  /** Block b's mark is bit b % 4096 of bitmap block b / 4096; balloc sets it and zeroes b, bfree clears it. */
  lemma MarkAt(sb: Super, blk: seq<Block>, b: int)
    requires Geometry(sb, blk) && 0 <= b < sb.size
    ensures var bp := sb.bmapstart + b / 4096;
      && 0 <= bp < |blk| && |blk[bp]| == 512 && BBlock(sb, b) == bp
      && (Used(sb, blk, b) <==> GetBit(blk[bp], b % 4096))
      && Alloced(sb, blk, b) == blk[bp := SetBit(blk[bp], b % 4096, true)][b := ZeroBlock]
      && Freed(sb, blk, b) == blk[bp := SetBit(blk[bp], b % 4096, false)]
  {
    hide GetBit, SetBit;
  }

  /** addr is what the inode names as the file's block bn: addrs[bn], or from the twelfth on the entry of the
      indirect block. */
  ghost predicate NamedBy(blk: seq<Block>, ip: Inode, bn: int, addr: int)
  {
    && 0 <= bn < 140 && |ip.addrs| == 13
    && if bn < 12 then addr == ip.addrs[bn]
       else
         && 0 < ip.addrs[12] < |blk| && |blk[ip.addrs[12]]| == 512
         && addr == GetWord(blk[ip.addrs[12]], bn - 12)
  }

  lemma AllocedUsed(sb: Super, blk: seq<Block>, b: int, x: int)
    requires Geometry(sb, blk) && sb.datastart <= b < sb.size && 0 <= x < sb.size
    ensures BBlock(sb, b) < sb.datastart
    ensures Geometry(sb, Alloced(sb, blk, b))
    ensures Used(sb, Alloced(sb, blk, b), x) <==> x == b || Used(sb, blk, x)
  {
    hide SetBit, GetBit;
    BitmapBlock(sb, blk, b);
    BitmapBlock(sb, blk, x);
    if BBlock(sb, b) == BBlock(sb, x) {
      SetBitGet(blk[BBlock(sb, b)], b % BPB, true, x % BPB);
    }
  }

  lemma FreedUsed(sb: Super, blk: seq<Block>, b: int, x: int)
    requires Geometry(sb, blk) && 0 <= b < sb.size && 0 <= x < sb.size
    ensures 0 <= BBlock(sb, b) < sb.datastart
    ensures Geometry(sb, Freed(sb, blk, b))
    ensures Used(sb, Freed(sb, blk, b), x) <==> x != b && Used(sb, blk, x)
  {
    hide SetBit, GetBit;
    BitmapBlock(sb, blk, b);
    BitmapBlock(sb, blk, x);
    if BBlock(sb, b) == BBlock(sb, x) {
      SetBitGet(blk[BBlock(sb, b)], b % BPB, false, x % BPB);
    }
  }

  // ---------------------------------------------------------------- the invariant

  /** Every inode has its 13 addresses; every block it names is a data block in use. */
  ghost predicate RefsMarked(sb: Super, blk: seq<Block>, ino: seq<Inode>, pend: set<int>)
  {
    && (forall i :: 0 <= i < |ino| ==> |ino[i].addrs| == NDIRECT + 1)
    && (forall i, k :: 0 <= i < |ino| && 0 <= k < NSLOT && Ref(blk, ino[i], k) != 0 ==>
          && sb.datastart <= Ref(blk, ino[i], k) < sb.size
          && Used(sb, blk, Ref(blk, ino[i], k))
          && Ref(blk, ino[i], k) !in pend)
  }

  /** No block is named twice. */
  ghost predicate RefsUnique(blk: seq<Block>, ino: seq<Inode>)
    requires forall i :: 0 <= i < |ino| ==> |ino[i].addrs| == NDIRECT + 1
  {
    forall i, k, j, l ::
      (0 <= i < |ino| && 0 <= k < NSLOT && 0 <= j < |ino| && 0 <= l < NSLOT
       && Ref(blk, ino[i], k) == Ref(blk, ino[j], l) && Ref(blk, ino[i], k) != 0) ==> i == j && k == l
  }

  ghost predicate Owned(blk: seq<Block>, ino: seq<Inode>, b: int)
    requires forall i :: 0 <= i < |ino| ==> |ino[i].addrs| == NDIRECT + 1
  {
    exists i, k :: 0 <= i < |ino| && 0 <= k < NSLOT && Ref(blk, ino[i], k) == b
  }

  /** The bitmap marks metadata, the blocks inodes name, the blocks in pend, and nothing else. */
  ghost predicate BitmapExact(sb: Super, blk: seq<Block>, ino: seq<Inode>, pend: set<int>)
    requires forall i :: 0 <= i < |ino| ==> |ino[i].addrs| == NDIRECT + 1
  {
    && (forall b :: 0 <= b < sb.datastart ==> Used(sb, blk, b))
    && (forall b :: b in pend ==> sb.datastart <= b < sb.size && Used(sb, blk, b))
    && (forall b :: sb.datastart <= b < sb.size && Used(sb, blk, b) && b !in pend ==> Owned(blk, ino, b))
  }

  /** Every block below the size is there. */
  ghost predicate NoHoles(blk: seq<Block>, ip: Inode)
    requires |ip.addrs| == NDIRECT + 1
  {
    && 0 <= ip.size <= MAXFILE * BSIZE
    && forall bn :: 0 <= bn < MAXFILE && bn * BSIZE < ip.size ==> Ref(blk, ip, DataSlot(bn)) != 0
  }

  /** The file system is consistent, apart from blocks in pend: allocated, named by no inode. */
  ghost predicate Consistent(sb: Super, blk: seq<Block>, ino: seq<Inode>, pend: set<int>)
  {
    && Geometry(sb, blk) && |ino| <= sb.ninodes
    && RefsMarked(sb, blk, ino, pend)
    && RefsUnique(blk, ino)
    && BitmapExact(sb, blk, ino, pend)
    && forall i :: 0 <= i < |ino| ==> NoHoles(blk, ino[i])
  }
}
