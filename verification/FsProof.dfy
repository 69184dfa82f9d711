/** Each way the file system changes its blocks and inodes keeps it consistent. */
module FsProof {
  import opened Blocks
  import opened FsLayout

  ghost predicate Shaped(ino: seq<Inode>)
  {
    forall i :: 0 <= i < |ino| ==> |ino[i].addrs| == NDIRECT + 1
  }

  /** Inode by inode and slot by slot, the same block numbers and sizes. */
  ghost predicate SameRefs(blk: seq<Block>, ino: seq<Inode>, blk': seq<Block>, ino': seq<Inode>)
    requires Shaped(ino) && Shaped(ino')
  {
    && |ino'| == |ino|
    && (forall i :: 0 <= i < |ino| ==> ino'[i].size == ino[i].size)
    && (forall i, k :: 0 <= i < |ino| && 0 <= k < NSLOT ==> Ref(blk', ino'[i], k) == Ref(blk, ino[i], k))
  }

  /** As SameRefs, but slot k0 of inode i0 goes from empty to b. */
  ghost predicate OneNewRef(blk: seq<Block>, ino: seq<Inode>, blk': seq<Block>, ino': seq<Inode>, i0: int, k0: int,
                            b: int)
    requires Shaped(ino) && Shaped(ino')
  {
    && 0 <= i0 < |ino| == |ino'| && 0 <= k0 < NSLOT
    && Ref(blk, ino[i0], k0) == 0
    && (forall i :: 0 <= i < |ino| ==> ino'[i].size == ino[i].size)
    && (forall i, k :: 0 <= i < |ino| && 0 <= k < NSLOT ==>
          Ref(blk', ino'[i], k) == if i == i0 && k == k0 then b else Ref(blk, ino[i], k))
  }

  ghost predicate SameUsed(sb: Super, blk: seq<Block>, blk': seq<Block>)
  {
    forall b :: 0 <= b < sb.size ==> (Used(sb, blk', b) <==> Used(sb, blk, b))
  }

  // ---------------------------------------------------------------- abstract steps

  lemma SameRefsConsistent(sb: Super, blk: seq<Block>, ino: seq<Inode>, pend: set<int>, blk': seq<Block>,
                           ino': seq<Inode>)
    requires Consistent(sb, blk, ino, pend)
    requires Geometry(sb, blk') && Shaped(ino') && SameRefs(blk, ino, blk', ino') && SameUsed(sb, blk, blk')
    ensures Consistent(sb, blk', ino', pend)
  {
  }

  lemma AllocConsistent(sb: Super, blk: seq<Block>, ino: seq<Inode>, pend: set<int>, blk': seq<Block>, b: int)
    requires Consistent(sb, blk, ino, pend)
    requires Geometry(sb, blk') && SameRefs(blk, ino, blk', ino)
    requires sb.datastart <= b < sb.size && !Used(sb, blk, b)
    requires forall x :: 0 <= x < sb.size ==> (Used(sb, blk', x) <==> x == b || Used(sb, blk, x))
    ensures Consistent(sb, blk', ino, pend + {b})
  {
    hide Ref, Used;
    OwnedSame(blk, blk', ino);
    assert BitmapExact(sb, blk', ino, pend + {b});
    assert RefsMarked(sb, blk', ino, pend + {b});
  }

  lemma OwnedSame(blk: seq<Block>, blk': seq<Block>, ino: seq<Inode>)
    requires Shaped(ino) && SameRefs(blk, ino, blk', ino)
    ensures forall x :: Owned(blk', ino, x) <==> Owned(blk, ino, x)
  {
    hide Ref;
    forall x | Owned(blk, ino, x) ensures Owned(blk', ino, x) {
      var i, k :| 0 <= i < |ino| && 0 <= k < NSLOT && Ref(blk, ino[i], k) == x;
      assert Ref(blk', ino[i], k) == x;
    }
    forall x | Owned(blk', ino, x) ensures Owned(blk, ino, x) {
      var i, k :| 0 <= i < |ino| && 0 <= k < NSLOT && Ref(blk', ino[i], k) == x;
      assert Ref(blk, ino[i], k) == x;
    }
  }

  lemma NewRefConsistent(sb: Super, blk: seq<Block>, ino: seq<Inode>, pend: set<int>,
                         blk': seq<Block>, ino': seq<Inode>, i0: int, k0: int, b: int)
    requires Consistent(sb, blk, ino, pend) && b in pend && b != 0
    requires Geometry(sb, blk') && Shaped(ino') && SameUsed(sb, blk, blk')
    requires OneNewRef(blk, ino, blk', ino', i0, k0, b)
    ensures Consistent(sb, blk', ino', pend - {b})
  {
    hide Ref, Used;
    forall x | Owned(blk, ino, x) && x != 0 ensures Owned(blk', ino', x) {
      var i, k :| 0 <= i < |ino| && 0 <= k < NSLOT && Ref(blk, ino[i], k) == x;
      assert Ref(blk', ino'[i], k) == x;
    }
    assert Owned(blk', ino', b) by { assert Ref(blk', ino'[i0], k0) == b; }
  }

  lemma FreeConsistent(sb: Super, blk: seq<Block>, ino: seq<Inode>, pend: set<int>, blk': seq<Block>, b: int)
    requires Consistent(sb, blk, ino, pend) && b in pend
    requires Geometry(sb, blk') && SameRefs(blk, ino, blk', ino)
    requires forall x :: 0 <= x < sb.size ==> (Used(sb, blk', x) <==> x != b && Used(sb, blk, x))
    ensures Consistent(sb, blk', ino, pend - {b})
  {
  }

  // ---------------------------------------------------------------- concrete steps

  /** Slots are read from the inode and its indirect block only. */
  lemma RefFrame(blk: seq<Block>, blk': seq<Block>, ip: Inode, k: int)
    requires |ip.addrs| == NDIRECT + 1 && 0 <= k < NSLOT && |blk'| == |blk|
    requires 0 < ip.addrs[NDIRECT] < |blk| ==> blk'[ip.addrs[NDIRECT]] == blk[ip.addrs[NDIRECT]]
    ensures Ref(blk', ip, k) == Ref(blk, ip, k)
  {
  }

  /** Blocks other than the indirect blocks may change without changing any slot. */
  lemma RefsFrame(sb: Super, blk: seq<Block>, ino: seq<Inode>, pend: set<int>, blk': seq<Block>)
    requires RefsMarked(sb, blk, ino, pend) && |blk'| == |blk|
    requires forall i :: 0 <= i < |ino| && ino[i].addrs[NDIRECT] != 0 && 0 < ino[i].addrs[NDIRECT] < |blk| ==>
      blk'[ino[i].addrs[NDIRECT]] == blk[ino[i].addrs[NDIRECT]]
    ensures Shaped(ino) && SameRefs(blk, ino, blk', ino)
  {
  }

  /** A named indirect block is a data block in use. */
  lemma IndirectMarked(sb: Super, blk: seq<Block>, ino: seq<Inode>, pend: set<int>, i: int)
    requires RefsMarked(sb, blk, ino, pend) && 0 <= i < |ino| && ino[i].addrs[NDIRECT] != 0
    ensures sb.datastart <= ino[i].addrs[NDIRECT] < sb.size && Used(sb, blk, ino[i].addrs[NDIRECT])
    ensures ino[i].addrs[NDIRECT] !in pend
  {
    hide Used;
    assert Ref(blk, ino[i], NDIRECT) == ino[i].addrs[NDIRECT];
  }

  /** balloc hands out a data block that nothing names. */
  lemma BallocStep(sb: Super, blk: seq<Block>, ino: seq<Inode>, pend: set<int>, b: int)
    requires Consistent(sb, blk, ino, pend)
    requires 0 <= b < sb.size && !Used(sb, blk, b)
    ensures sb.datastart <= b && 0 <= BBlock(sb, b) < sb.datastart
    ensures Consistent(sb, Alloced(sb, blk, b), ino, pend + {b})
    ensures SameRefs(blk, ino, Alloced(sb, blk, b), ino)
    ensures forall x :: sb.datastart <= x < sb.size && x != b ==> Alloced(sb, blk, b)[x] == blk[x]
    ensures Alloced(sb, blk, b)[b] == ZeroBlock
    ensures b !in pend && !Owned(blk, ino, b)
  {
    hide Used, Ref, SetBit;
    BitmapBlock(sb, blk, b);
    var blk' := Alloced(sb, blk, b);
    AllocedUsed(sb, blk, b, b);
    forall i | 0 <= i < |ino| && ino[i].addrs[NDIRECT] != 0
      ensures 0 < ino[i].addrs[NDIRECT] < |blk| && blk'[ino[i].addrs[NDIRECT]] == blk[ino[i].addrs[NDIRECT]]
    {
      IndirectMarked(sb, blk, ino, pend, i);
    }
    RefsFrame(sb, blk, ino, pend, blk');
    forall x | 0 <= x < sb.size ensures Used(sb, blk', x) <==> x == b || Used(sb, blk, x) {
      AllocedUsed(sb, blk, b, x);
    }
    AllocConsistent(sb, blk, ino, pend, blk', b);
  }

  function SetAddr(ip: Inode, k: int, b: int): Inode
    requires 0 <= k < |ip.addrs|
  {
    ip.(addrs := ip.addrs[k := b])
  }

  /** ip->addrs[k] = b, for a direct block or for a zeroed indirect block. */
  lemma SetAddrStep(sb: Super, blk: seq<Block>, ino: seq<Inode>, pend: set<int>, i0: int, k0: int, b: int)
    requires Consistent(sb, blk, ino, pend) && b in pend && b != 0
    requires 0 <= i0 < |ino| && 0 <= k0 <= NDIRECT && ino[i0].addrs[k0] == 0
    requires k0 == NDIRECT ==> blk[b] == ZeroBlock
    ensures Consistent(sb, blk, ino[i0 := SetAddr(ino[i0], k0, b)], pend - {b})
    ensures OneNewRef(blk, ino, blk, ino[i0 := SetAddr(ino[i0], k0, b)], i0, k0, b)
  {
    hide Used, GetWord;
    var ino' := ino[i0 := SetAddr(ino[i0], k0, b)];
    forall k | 0 <= k < NSLOT
      ensures Ref(blk, ino'[i0], k) == if k == k0 then b else Ref(blk, ino[i0], k)
    {
      if k > NDIRECT && k0 == NDIRECT {
        ZeroWord(k - NDIRECT - 1);
      }
    }
    assert OneNewRef(blk, ino, blk, ino', i0, k0, b);
    NewRefConsistent(sb, blk, ino, pend, blk, ino', i0, k0, b);
  }

  /** a[k] = b in the indirect block of inode i0. */
  lemma SetEntryStep(sb: Super, blk: seq<Block>, ino: seq<Inode>, pend: set<int>, i0: int, e: int, b: int,
                     blk': seq<Block>)
    requires Consistent(sb, blk, ino, pend) && b in pend && b != 0
    requires 0 <= i0 < |ino| && 0 <= e < NINDIRECT && ino[i0].addrs[NDIRECT] != 0
    requires Ref(blk, ino[i0], NDIRECT + 1 + e) == 0
    requires sb.datastart <= ino[i0].addrs[NDIRECT] < sb.size == |blk|
    requires blk' == blk[ino[i0].addrs[NDIRECT] := SetWord(blk[ino[i0].addrs[NDIRECT]], e, b)]
    ensures Consistent(sb, blk', ino, pend - {b})
    ensures OneNewRef(blk, ino, blk', ino, i0, NDIRECT + 1 + e, b)
  {
    hide GetWord, SetWord;
    var ind := ino[i0].addrs[NDIRECT];
    assert SameUsed(sb, blk, blk') by { DataFrame(sb, blk, blk', ind); }
    forall i, k | 0 <= i < |ino| && 0 <= k < NSLOT
      ensures Ref(blk', ino[i], k) == if i == i0 && k == NDIRECT + 1 + e then b else Ref(blk, ino[i], k)
    {
      if i == i0 && k > NDIRECT {
        SetWordGet(blk[ind], e, b, k - NDIRECT - 1);
      } else if i != i0 {
        assert Ref(blk, ino[i], NDIRECT) == ino[i].addrs[NDIRECT] && Ref(blk, ino[i0], NDIRECT) == ind;
        RefFrame(blk, blk', ino[i], k);
      }
    }
    hide Used, Ref;
    NewRefConsistent(sb, blk, ino, pend, blk', ino, i0, NDIRECT + 1 + e, b);
  }

  /** Changing one data block leaves the bitmap alone. */
  lemma DataFrame(sb: Super, blk: seq<Block>, blk': seq<Block>, x: int)
    requires Geometry(sb, blk) && sb.datastart <= x < sb.size && |blk'| == |blk|
    requires forall y :: 0 <= y < |blk| && y != x ==> blk'[y] == blk[y]
    ensures SameUsed(sb, blk, blk')
  {
  }

  /** Storing into a data block of a file changes no slot of any inode. */
  lemma WriteDataStep(sb: Super, blk: seq<Block>, ino: seq<Inode>, pend: set<int>, i0: int, k0: int, data: Block)
    requires Consistent(sb, blk, ino, pend)
    requires 0 <= i0 < |ino| && 0 <= k0 < NSLOT && k0 != NDIRECT && |data| == BSIZE
    requires Ref(blk, ino[i0], k0) != 0
    ensures sb.datastart <= Ref(blk, ino[i0], k0) < |blk|
    ensures Consistent(sb, blk[Ref(blk, ino[i0], k0) := data], ino, pend)
    ensures SameRefs(blk, ino, blk[Ref(blk, ino[i0], k0) := data], ino)
  {
    hide Used;
    var x := Ref(blk, ino[i0], k0);
    var blk' := blk[x := data];
    DataFrame(sb, blk, blk', x);
    forall i | 0 <= i < |ino| && ino[i].addrs[NDIRECT] != 0
      ensures 0 < ino[i].addrs[NDIRECT] < |blk| ==> blk'[ino[i].addrs[NDIRECT]] == blk[ino[i].addrs[NDIRECT]]
    {
      assert Ref(blk, ino[i], NDIRECT) == ino[i].addrs[NDIRECT];
    }
    RefsFrame(sb, blk, ino, pend, blk');
    SameRefsConsistent(sb, blk, ino, pend, blk', ino);
  }

  /** bfree of a block no inode names any more. */
  lemma BfreeStep(sb: Super, blk: seq<Block>, ino: seq<Inode>, pend: set<int>, b: int)
    requires Consistent(sb, blk, ino, pend) && b in pend
    ensures sb.datastart <= b < sb.size && Used(sb, blk, b) && 0 <= BBlock(sb, b) < sb.datastart
    ensures Consistent(sb, Freed(sb, blk, b), ino, pend - {b})
    ensures SameRefs(blk, ino, Freed(sb, blk, b), ino)
    ensures forall x :: sb.datastart <= x < sb.size ==> Freed(sb, blk, b)[x] == blk[x]
  {
    hide Used, Ref, SetBit;
    BitmapBlock(sb, blk, b);
    var blk' := Freed(sb, blk, b);
    FreedUsed(sb, blk, b, b);
    forall i | 0 <= i < |ino| && ino[i].addrs[NDIRECT] != 0
      ensures 0 < ino[i].addrs[NDIRECT] < |blk| && blk'[ino[i].addrs[NDIRECT]] == blk[ino[i].addrs[NDIRECT]]
    {
      IndirectMarked(sb, blk, ino, pend, i);
    }
    RefsFrame(sb, blk, ino, pend, blk');
    forall x | 0 <= x < sb.size ensures Used(sb, blk', x) <==> x != b && Used(sb, blk, x) {
      FreedUsed(sb, blk, b, x);
    }
    FreeConsistent(sb, blk, ino, pend, blk', b);
  }

  const NoBlocks: seq<int> := [0, 0, 0, 0, 0, 0, 0, 0, 0, 0, 0, 0, 0]

  /** The blocks an inode names. */
  ghost function BlocksOf(blk: seq<Block>, ip: Inode): set<int>
    requires |ip.addrs| == NDIRECT + 1
  {
    set k | 0 <= k < NSLOT && Ref(blk, ip, k) != 0 :: Ref(blk, ip, k)
  }

  /** Forgetting an inode's blocks leaves exactly those blocks unnamed. */
  lemma DetachStep(sb: Super, blk: seq<Block>, ino: seq<Inode>, pend: set<int>, i0: int)
    requires Consistent(sb, blk, ino, pend) && 0 <= i0 < |ino|
    ensures Consistent(sb, blk, ino[i0 := Inode(0, NoBlocks)], pend + BlocksOf(blk, ino[i0]))
  {
    var ino' := ino[i0 := Inode(0, NoBlocks)];
    forall k | 0 <= k < NSLOT ensures Ref(blk, ino'[i0], k) == 0 {
    }
    hide Ref, Used;
    var pend' := pend + BlocksOf(blk, ino[i0]);
    forall b | Owned(blk, ino, b) && b != 0 && b !in pend' ensures Owned(blk, ino', b) {
      var i, k :| 0 <= i < |ino| && 0 <= k < NSLOT && Ref(blk, ino[i], k) == b;
      assert Ref(blk, ino'[i], k) == b;
    }
    assert RefsMarked(sb, blk, ino', pend');
    assert BitmapExact(sb, blk, ino', pend');
  }

  /** ip->size = off, once every block below off is there. */
  lemma GrowStep(sb: Super, blk: seq<Block>, ino: seq<Inode>, pend: set<int>, i0: int, size: int)
    requires Consistent(sb, blk, ino, pend) && 0 <= i0 < |ino|
    requires NoHoles(blk, ino[i0].(size := size))
    ensures Consistent(sb, blk, ino[i0 := ino[i0].(size := size)], pend)
  {
    var ino' := ino[i0 := ino[i0].(size := size)];
    forall i, k | 0 <= i < |ino| && 0 <= k < NSLOT ensures Ref(blk, ino'[i], k) == Ref(blk, ino[i], k) {
    }
    hide Ref, Used;
    forall b | Owned(blk, ino, b) ensures Owned(blk, ino', b) {
      var i, k :| 0 <= i < |ino| && 0 <= k < NSLOT && Ref(blk, ino[i], k) == b;
      assert Ref(blk, ino'[i], k) == b;
    }
  }

  // ---------------------------------------------------------------- file contents

  /** Byte off of a file, where its block is there. */
  ghost function ByteAt(blk: seq<Block>, ip: Inode, off: int): byte
    requires |ip.addrs| == NDIRECT + 1 && 0 <= off < MAXFILE * BSIZE
  {
    var b := Ref(blk, ip, DataSlot(off / BSIZE));
    if 0 < b < |blk| && |blk[b]| == BSIZE then blk[b][off % BSIZE] else 0
  }

  /** The byte string a file denotes. */
  ghost function Content(blk: seq<Block>, ip: Inode): (s: seq<byte>)
    ensures Proper(ip) ==> |s| == ip.size
  {
    if Proper(ip) then seq(ip.size, off requires 0 <= off < ip.size => ByteAt(blk, ip, off)) else []
  }

  predicate Proper(ip: Inode)
  {
    |ip.addrs| == NDIRECT + 1 && 0 <= ip.size <= MAXFILE * BSIZE
  }

  /** s with src written over it from off on. */
  ghost function Splice(s: seq<byte>, off: int, src: seq<byte>): seq<byte>
  {
    if !(0 <= off <= |s|) then s
    else s[..off] + src + (if off + |src| < |s| then s[off + |src|..] else [])
  }

  /** Every block the file had is still in its slot with the same data. */
  ghost predicate Keeps(blk: seq<Block>, ip: Inode, blk': seq<Block>, ip': Inode)
    requires |ip.addrs| == NDIRECT + 1 && |ip'.addrs| == NDIRECT + 1
  {
    forall k :: 0 <= k < NSLOT && k != NDIRECT && Ref(blk, ip, k) != 0 ==>
      && Ref(blk', ip', k) == Ref(blk, ip, k)
      && (0 <= Ref(blk, ip, k) < |blk| <= |blk'| ==> blk'[Ref(blk, ip, k)] == blk[Ref(blk, ip, k)])
  }

  lemma NamedAt(sb: Super, blk: seq<Block>, ino: seq<Inode>, i: int, bn: int)
    requires Consistent(sb, blk, ino, {}) && 0 <= i < |ino| && 0 <= bn < MAXFILE
    ensures Shaped(ino)
    ensures var b := Ref(blk, ino[i], DataSlot(bn));
      b != 0 ==> NamedBy(blk, ino[i], bn, b) && 0 < b < |blk| && |blk[b]| == BSIZE
  {
    hide Used, GetWord;
    assert Ref(blk, ino[i], NDIRECT) == ino[i].addrs[NDIRECT];
  }

  /** Where a file's bytes lie: byte j of its block bn is byte j of the block that the inode names for bn. */
  lemma ContentAt(sb: Super, blk: seq<Block>, ino: seq<Inode>, i: int, bn: int, j: int, b: int)
    requires Consistent(sb, blk, ino, {}) && 0 <= i < |ino|
    requires 0 <= bn && 0 <= j < 512 && 512 * bn + j < ino[i].size && NamedBy(blk, ino[i], bn, b)
    ensures 512 * bn + j < |Content(blk, ino[i])| && 0 < b < |blk| && |blk[b]| == 512
    ensures Content(blk, ino[i])[512 * bn + j] == blk[b][j]
  {
    hide Used, GetWord;
    var x := 512 * bn + j;
    assert x / BSIZE == bn && x % BSIZE == j && bn * BSIZE < ino[i].size;
    NamedAt(sb, blk, ino, i, bn);
    assert Ref(blk, ino[i], DataSlot(bn)) != 0;
    assert Content(blk, ino[i])[x] == ByteAt(blk, ino[i], x);
  }

  lemma KeepsContent(blk: seq<Block>, ip: Inode, blk': seq<Block>, ip': Inode)
    requires |ip.addrs| == NDIRECT + 1 && |ip'.addrs| == NDIRECT + 1 && |blk'| == |blk|
    requires Keeps(blk, ip, blk', ip') && NoHoles(blk, ip) && ip'.size == ip.size
    ensures Content(blk', ip') == Content(blk, ip)
  {
  }
}
