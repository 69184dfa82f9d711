/** Inodes as they lie in the inode blocks: eight to a block, 64 bytes each. */
module FsInodes {
  import opened Blocks
  import opened FsLayout
  import opened FsProof

  /** Words of a struct dinode before its size: type, major, minor and nlink. */
  const HEAD := 2

  /** Words of a struct dinode. */
  const WORDS := 16

  /** The k-th inode of an inode block. */
  function DiskInode(b: Block, k: int): (ip: Inode)
    requires |b| == BSIZE && 0 <= k < IPB
    ensures |ip.addrs| == NDIRECT + 1
  {
    Inode(GetWord(b, WORDS * k + HEAD),
          seq(NDIRECT + 1, a requires 0 <= a < NDIRECT + 1 => GetWord(b, WORDS * k + HEAD + 1 + a)))
  }

  /** b with ws stored from word at on. */
  function PutWords(b: Block, at: int, ws: seq<int>): (b': Block)
    requires |b| == BSIZE && 0 <= at && at + |ws| <= 128
    requires forall i :: 0 <= i < |ws| ==> 0 <= ws[i] < UINT_RANGE
    ensures |b'| == BSIZE
    decreases |ws|
  {
    if ws == [] then b else SetWord(PutWords(b, at, ws[..|ws| - 1]), at + |ws| - 1, ws[|ws| - 1])
  }

  lemma {:induction false} PutWordsGet(b: Block, at: int, ws: seq<int>, j: nat)
    requires |b| == BSIZE && 0 <= at && at + |ws| <= 128 && j < 128
    requires forall i :: 0 <= i < |ws| ==> 0 <= ws[i] < UINT_RANGE
    ensures GetWord(PutWords(b, at, ws), j) == if at <= j < at + |ws| then ws[j - at] else GetWord(b, j)
    decreases |ws|
  {
    hide GetWord, SetWord;
    if ws != [] {
      var n := |ws| - 1;
      PutWordsGet(b, at, ws[..n], j);
      SetWordGet(PutWords(b, at, ws[..n]), at + n, ws[n], j);
    }
  }

  /** An inode whose numbers fit 32 bits. */
  predicate Storable(ip: Inode)
  {
    && |ip.addrs| == NDIRECT + 1 && 0 <= ip.size < UINT_RANGE
    && forall k :: 0 <= k <= NDIRECT ==> 0 <= ip.addrs[k] < UINT_RANGE
  }

  /** iupdate's stores: size and addresses; the four short fields stay as they are. */
  function PutInode(b: Block, k: int, ip: Inode): (b': Block)
    requires |b| == BSIZE && 0 <= k < IPB && Storable(ip)
    ensures |b'| == BSIZE
  {
    PutWords(b, WORDS * k + HEAD, [ip.size] + ip.addrs)
  }

  /** What iupdate stores reads back, and no other inode of the block changes. */
  lemma PutInodeGet(b: Block, k: int, ip: Inode, j: int)
    requires |b| == BSIZE && 0 <= k < IPB && Storable(ip) && 0 <= j < IPB
    ensures DiskInode(PutInode(b, k, ip), j) == if j == k then ip else DiskInode(b, j)
  {
    hide GetWord, SetWord, PutWords;
    var b', ws, at := PutInode(b, k, ip), [ip.size] + ip.addrs, WORDS * k + HEAD;
    PutWordsGet(b, at, ws, WORDS * j + HEAD);
    var got, want := DiskInode(b', j).addrs, if j == k then ip.addrs else DiskInode(b, j).addrs;
    forall a | 0 <= a < NDIRECT + 1 ensures got[a] == want[a] {
      PutWordsGet(b, at, ws, WORDS * j + HEAD + 1 + a);
    }
    assert got == want;
  }

  lemma {:induction false} PutWordsOutside(b: Block, at: int, ws: seq<int>, x: nat)
    requires |b| == BSIZE && 0 <= at && at + |ws| <= 128 && x < BSIZE && !(4 * at <= x < 4 * (at + |ws|))
    requires forall i :: 0 <= i < |ws| ==> 0 <= ws[i] < UINT_RANGE
    ensures PutWords(b, at, ws)[x] == b[x]
    decreases |ws|
  {
    hide SetWord;
    if ws != [] {
      var n := |ws| - 1;
      PutWordsOutside(b, at, ws[..n], x);
      SetWordOutside(PutWords(b, at, ws[..n]), at + n, ws[n], x);
    }
  }

  /** struct dinode number k of a block: its size is word 2 of its sixteen, its addresses are words 3 to 15. */
  ghost predicate LiesAt(b: Block, k: int, ip: Inode)
  {
    && |b| == 512 && 0 <= k < 8 && |ip.addrs| == 13
    && GetWord(b, 16 * k + 2) == ip.size
    && forall a :: 0 <= a < 13 ==> GetWord(b, 16 * k + 3 + a) == ip.addrs[a]
  }

  /** From blk to blk', inode k of block ib becomes ip, and no byte changes but those of its size and addresses. */
  ghost predicate InPlace(blk: seq<Block>, blk': seq<Block>, ib: int, k: int, ip: Inode)
  {
    && |blk'| == |blk| && 0 <= ib < |blk| && |blk[ib]| == 512 && LiesAt(blk'[ib], k, ip)
    && (forall b :: 0 <= b < |blk| && b != ib ==> blk'[b] == blk[b])
    && (forall x :: 0 <= x < 512 && !(64 * k + 8 <= x < 64 * k + 64) ==> blk'[ib][x] == blk[ib][x])
  }

  lemma PutInodePlace(blk: seq<Block>, ib: int, k: int, ip: Inode)
    requires 0 <= ib < |blk| && |blk[ib]| == BSIZE && 0 <= k < IPB && Storable(ip)
    ensures InPlace(blk, blk[ib := PutInode(blk[ib], k, ip)], ib, k, ip)
  {
    hide GetWord, PutWords;
    var b, ws, at := blk[ib], [ip.size] + ip.addrs, WORDS * k + HEAD;
    PutWordsGet(b, at, ws, 16 * k + 2);
    forall a | 0 <= a < 13 ensures GetWord(PutInode(b, k, ip), 16 * k + 3 + a) == ip.addrs[a] {
      PutWordsGet(b, at, ws, 16 * k + 3 + a);
    }
    forall x | 0 <= x < 512 && !(64 * k + 8 <= x < 64 * k + 64) ensures PutInode(b, k, ip)[x] == b[x] {
      PutWordsOutside(b, at, ws, x);
    }
  }

  lemma DiskInodesLie(sb: Super, blk: seq<Block>, n: nat, j: int)
    requires Geometry(sb, blk) && 0 <= j < n <= sb.ninodes
    ensures 0 <= sb.inodestart + j / 8 < |blk|
    ensures LiesAt(blk[sb.inodestart + j / 8], j % 8, DiskInodes(sb, blk, n)[j])
  {
    hide GetWord;
    InodeBlock(sb, blk, j);
  }

  /** The first n inodes on the disk. */
  function DiskInodes(sb: Super, blk: seq<Block>, n: nat): (r: seq<Inode>)
    requires Geometry(sb, blk) && n <= sb.ninodes
    ensures |r| == n
  {
    seq(n, j requires 0 <= j < n => DiskInode(blk[IBlock(sb, j)], j % IPB))
  }

  lemma InodeBlock(sb: Super, blk: seq<Block>, j: int)
    requires Geometry(sb, blk) && 0 <= j < sb.ninodes
    ensures sb.inodestart <= IBlock(sb, j) < sb.bmapstart <= sb.datastart <= |blk|
  {
  }

  /** Where the inode blocks are the same, so are the inodes. */
  lemma SameInodes(sb: Super, blk: seq<Block>, blk': seq<Block>, n: nat)
    requires Geometry(sb, blk) && Geometry(sb, blk') && n <= sb.ninodes
    requires forall b :: 0 <= b < sb.bmapstart && b < |blk| && b < |blk'| ==> blk'[b] == blk[b]
    ensures DiskInodes(sb, blk', n) == DiskInodes(sb, blk, n)
  {
    hide DiskInode, IBlock;
    forall j | 0 <= j < n ensures DiskInodes(sb, blk', n)[j] == DiskInodes(sb, blk, n)[j] {
      InodeBlock(sb, blk, j);
    }
  }

  /** iupdate's effect on the disk. */
  function Updated(sb: Super, blk: seq<Block>, i: int, ip: Inode): seq<Block>
    requires Geometry(sb, blk) && 0 <= i < sb.ninodes && Storable(ip)
  {
    InodeBlock(sb, blk, i);
    blk[IBlock(sb, i) := PutInode(blk[IBlock(sb, i)], i % IPB, ip)]
  }

  /** One inode on the disk changes. */
  lemma UpdatedInodes(sb: Super, blk: seq<Block>, i: int, ip: Inode, n: nat)
    requires Geometry(sb, blk) && 0 <= i < n <= sb.ninodes && Storable(ip)
    ensures Geometry(sb, Updated(sb, blk, i, ip))
    ensures DiskInodes(sb, Updated(sb, blk, i, ip), n) == DiskInodes(sb, blk, n)[i := ip]
  {
    hide DiskInode, PutInode, Storable;
    InodeBlock(sb, blk, i);
    var blk' := Updated(sb, blk, i, ip);
    forall j | 0 <= j < n ensures DiskInodes(sb, blk', n)[j] == DiskInodes(sb, blk, n)[i := ip][j] {
      InodeBlock(sb, blk, j);
      PutInodeGet(blk[IBlock(sb, i)], i % IPB, ip, j % IPB);
      assert j == j / IPB * IPB + j % IPB && i == i / IPB * IPB + i % IPB;
    }
  }

  /** An inode of a consistent file system fits its place on the disk. */
  lemma FitsDisk(sb: Super, blk: seq<Block>, ino: seq<Inode>, pend: set<int>, i: int)
    requires Consistent(sb, blk, ino, pend) && 0 <= i < |ino|
    ensures Storable(ino[i]) && i < sb.ninodes
  {
    hide Used;
    forall k | 0 <= k <= NDIRECT ensures 0 <= ino[i].addrs[k] < UINT_RANGE {
      assert Ref(blk, ino[i], k) == ino[i].addrs[k];
    }
  }

  /** Inode blocks hold neither data nor bitmap: a store there keeps every file and every mark. */
  lemma UpdatedStep(sb: Super, blk: seq<Block>, ino: seq<Inode>, pend: set<int>, i: int, ip: Inode)
    requires Consistent(sb, blk, ino, pend) && 0 <= i < |ino| && Storable(ip)
    ensures i < sb.ninodes && |Updated(sb, blk, i, ip)| == |blk|
    ensures Consistent(sb, Updated(sb, blk, i, ip), ino, pend)
    ensures Shaped(ino) && SameRefs(blk, ino, Updated(sb, blk, i, ip), ino)
    ensures SameUsed(sb, blk, Updated(sb, blk, i, ip))
  {
    hide PutInode, Storable;
    InodeBlock(sb, blk, i);
    var blk' := Updated(sb, blk, i, ip);
    assert SameUsed(sb, blk, blk');
    hide Used;
    forall j | 0 <= j < |ino| && ino[j].addrs[NDIRECT] != 0
      ensures 0 < ino[j].addrs[NDIRECT] < |blk| ==> blk'[ino[j].addrs[NDIRECT]] == blk[ino[j].addrs[NDIRECT]]
    {
      assert Ref(blk, ino[j], NDIRECT) == ino[j].addrs[NDIRECT];
    }
    RefsFrame(sb, blk, ino, pend, blk');
    SameRefsConsistent(sb, blk, ino, pend, blk', ino);
  }
}
