/** fs.c and file.c: block allocation, block mapping, reading, writing and truncating files. */
module FsOps {
  import opened Blocks
  import opened FsLayout
  import opened FsProof
  import opened FsInodes

  /** All inodes keep their blocks and their data, whatever they gained. */
  ghost predicate KeepsAll(blk: seq<Block>, ino: seq<Inode>, blk': seq<Block>, ino': seq<Inode>)
    requires Shaped(ino) && Shaped(ino')
  {
    && |ino'| == |ino| && |blk'| == |blk|
    && forall j :: 0 <= j < |ino| ==> ino'[j].size == ino[j].size && Keeps(blk, ino[j], blk', ino'[j])
  }

  lemma KeepsAllTrans(blk: seq<Block>, ino: seq<Inode>, blk1: seq<Block>, ino1: seq<Inode>, blk2: seq<Block>,
                      ino2: seq<Inode>)
    requires Shaped(ino) && Shaped(ino1) && Shaped(ino2)
    requires KeepsAll(blk, ino, blk1, ino1) && KeepsAll(blk1, ino1, blk2, ino2)
    ensures KeepsAll(blk, ino, blk2, ino2)
  {
  }

  /** Slots unchanged, and no block they name changed except an indirect one. */
  lemma KeepsAllFrame(sb: Super, blk: seq<Block>, ino: seq<Inode>, pend: set<int>, blk': seq<Block>, x: int)
    requires Consistent(sb, blk, ino, pend) && |blk'| == |blk|
    requires forall i, k :: 0 <= i < |ino| && 0 <= k < NSLOT && Ref(blk, ino[i], k) != 0 ==>
      Ref(blk', ino[i], k) == Ref(blk, ino[i], k)
    requires forall y :: sb.datastart <= y < sb.size && y != x ==> blk'[y] == blk[y]
    requires forall i, k :: 0 <= i < |ino| && 0 <= k < NSLOT && k != NDIRECT && Ref(blk, ino[i], k) != 0 ==>
      Ref(blk, ino[i], k) != x
    ensures KeepsAll(blk, ino, blk', ino)
  {
  }

  /** balloc and then a[e] = addr in the indirect block of inode i. */
  lemma EntryStep(sb: Super, blk: seq<Block>, ino: seq<Inode>, i: int, e: int, addr: int, blk2: seq<Block>)
    requires Consistent(sb, blk, ino, {}) && 0 <= i < |ino| && ino[i].addrs[NDIRECT] != 0
    requires 0 <= e < NINDIRECT && Ref(blk, ino[i], NDIRECT + 1 + e) == 0
    requires 0 <= addr < sb.size && !Used(sb, blk, addr)
    requires 0 <= BBlock(sb, addr) < |blk| && sb.datastart <= ino[i].addrs[NDIRECT] < sb.size
    requires |Alloced(sb, blk, addr)[ino[i].addrs[NDIRECT]]| == BSIZE
    requires blk2 == Alloced(sb, blk, addr)[ino[i].addrs[NDIRECT] :=
        SetWord(Alloced(sb, blk, addr)[ino[i].addrs[NDIRECT]], e, addr)]
    ensures Consistent(sb, blk2, ino, {}) && KeepsAll(blk, ino, blk2, ino)
    ensures addr != 0 && OneNewRef(blk, ino, blk2, ino, i, NDIRECT + 1 + e, addr)
    ensures addr < |blk2| && blk2[addr] == ZeroBlock
  {
    hide Used, Ref, GetWord, SetWord, Alloced, Consistent;
    Sizes(sb, blk, ino);
    var ind := ino[i].addrs[NDIRECT];
    var blk1 := Alloced(sb, blk, addr);
    BallocStep(sb, blk, ino, {}, addr);
    AllocedUsed(sb, blk, addr, addr);
    assert {} + {addr} == {addr} && {addr} - {addr} == {};
    SetEntryStep(sb, blk1, ino, {addr}, i, e, addr, blk2);
    IndirectIsNotData(sb, blk, ino, {}, i);
    IndirectIsNotData(sb, blk1, ino, {addr}, i);
    NotOwned(sb, blk, ino, addr);
    KeepsAllFrame(sb, blk, ino, {}, blk1, addr);
    KeepsAllFrame(sb, blk1, ino, {addr}, blk2, ind);
    KeepsAllTrans(blk, ino, blk1, ino, blk2, ino);
  }

  /** The indirect block of an inode is no file's data block. */
  lemma IndirectIsNotData(sb: Super, blk: seq<Block>, ino: seq<Inode>, pend: set<int>, i: int)
    requires Consistent(sb, blk, ino, pend) && 0 <= i < |ino| && ino[i].addrs[NDIRECT] != 0
    ensures |blk| == sb.size && Shaped(ino)
    ensures ino[i].addrs[NDIRECT] !in pend
    ensures forall j, k :: 0 <= j < |ino| && 0 <= k < NSLOT && k != NDIRECT && Ref(blk, ino[j], k) != 0 ==>
      Ref(blk, ino[j], k) != ino[i].addrs[NDIRECT]
  {
    hide Used, GetWord;
    assert Ref(blk, ino[i], NDIRECT) == ino[i].addrs[NDIRECT];
  }

  /** No slot names a free block. */
  lemma NotOwned(sb: Super, blk: seq<Block>, ino: seq<Inode>, b: int)
    requires Consistent(sb, blk, ino, {}) && !Used(sb, blk, b)
    ensures forall j, k :: 0 <= j < |ino| && 0 <= k < NSLOT && Ref(blk, ino[j], k) != 0 ==> Ref(blk, ino[j], k) != b
  {
  }

  /** The bytes of a file that one of its blocks holds. */
  lemma ReadChunk(sb: Super, blk: seq<Block>, ino: seq<Inode>, i: int, off: int, m: int)
    requires Consistent(sb, blk, ino, {}) && 0 <= i < |ino|
    requires 0 <= off && 0 < m <= BSIZE - off % BSIZE && off + m <= ino[i].size
    ensures off / BSIZE < MAXFILE
    ensures var b := Ref(blk, ino[i], DataSlot(off / BSIZE));
      0 < b < |blk| && |blk[b]| == BSIZE && blk[b][off % BSIZE..off % BSIZE + m] == Content(blk, ino[i])[off..off + m]
  {
  }

  // ---------------------------------------------------------------- writing

  ghost function Indirect(ip: Inode): set<int>
    requires |ip.addrs| == NDIRECT + 1
  {
    if ip.addrs[NDIRECT] == 0 then {} else {ip.addrs[NDIRECT]}
  }

  /** Did the file gain its indirect block? */
  function NewIndirect(ip: Inode, ip': Inode): int
    requires |ip.addrs| == NDIRECT + 1 && |ip'.addrs| == NDIRECT + 1
  {
    if ip.addrs[NDIRECT] == 0 && ip'.addrs[NDIRECT] != 0 then 1 else 0
  }

  /** tot bytes of src are in the file from off on; every byte it had elsewhere is as before. */
  ghost predicate Written(blk0: seq<Block>, ip0: Inode, blk: seq<Block>, ip: Inode, off: int, tot: int, src: seq<byte>)
    requires |ip0.addrs| == NDIRECT + 1 && |ip.addrs| == NDIRECT + 1
    requires 0 <= off && 0 <= tot <= |src| && off + tot <= MAXFILE * BSIZE
  {
    && (forall k :: 0 <= k < NSLOT && k != NDIRECT && Ref(blk0, ip0, k) != 0 ==> Ref(blk, ip, k) == Ref(blk0, ip0, k))
    && (forall x :: 0 <= x < MAXFILE * BSIZE && !(off <= x < off + tot) && Ref(blk0, ip0, DataSlot(x / BSIZE)) != 0 ==>
          ByteAt(blk, ip, x) == ByteAt(blk0, ip0, x))
    && (forall x :: off <= x < off + tot ==>
          Ref(blk, ip, DataSlot(x / BSIZE)) != 0 && ByteAt(blk, ip, x) == src[x - off])
  }

  /** bmap gave the file blocks but changed none it had. */
  lemma WrittenBmap(blk0: seq<Block>, ip0: Inode, blk: seq<Block>, ip: Inode, blk1: seq<Block>, ip1: Inode,
                    off: int, tot: int, src: seq<byte>)
    requires |ip0.addrs| == NDIRECT + 1 && |ip.addrs| == NDIRECT + 1 && |ip1.addrs| == NDIRECT + 1
    requires 0 <= off && 0 <= tot <= |src| && off + tot <= MAXFILE * BSIZE && |blk1| == |blk|
    requires Written(blk0, ip0, blk, ip, off, tot, src) && Keeps(blk, ip, blk1, ip1)
    ensures Written(blk0, ip0, blk1, ip1, off, tot, src)
  {
  }

  /** bp->data[off % BSIZE ..] = src[tot .. tot + m]. */
  function Patch(b: Block, at: int, src: seq<byte>, tot: int, m: int): Block
    requires 0 <= at && at + m <= |b| && 0 <= m && 0 <= tot && tot + m <= |src|
  {
    b[..at] + src[tot..tot + m] + b[at + m..]
  }

  lemma WrittenStore(blk0: seq<Block>, ip0: Inode, blk: seq<Block>, ip: Inode, blk1: seq<Block>,
                     off: int, tot: int, m: int, src: seq<byte>)
    requires |ip0.addrs| == NDIRECT + 1 && |ip.addrs| == NDIRECT + 1
    requires 0 <= off && 0 <= tot && 0 < m && tot + m <= |src| && off + tot + m <= MAXFILE * BSIZE
    requires m <= BSIZE - (off + tot) % BSIZE
    requires Written(blk0, ip0, blk, ip, off, tot, src)
    requires var b := Ref(blk, ip, DataSlot((off + tot) / BSIZE));
      && 0 < b < |blk| && |blk[b]| == BSIZE
      && blk1 == blk[b := Patch(blk[b], (off + tot) % BSIZE, src, tot, m)]
      && (forall k :: 0 <= k < NSLOT ==> Ref(blk1, ip, k) == Ref(blk, ip, k))
      && (forall k :: 0 <= k < NSLOT && k != DataSlot((off + tot) / BSIZE) ==> Ref(blk, ip, k) != b)
    ensures Written(blk0, ip0, blk1, ip, off, tot + m, src)
  {
    hide Ref;
    var bn := (off + tot) / BSIZE;
    var b := Ref(blk, ip, DataSlot(bn));
    forall x | 0 <= x < MAXFILE * BSIZE
      ensures ByteAt(blk1, ip, x) == if off + tot <= x < off + tot + m then src[x - off] else ByteAt(blk, ip, x)
    {
      if x / BSIZE == bn {
        assert x == bn * BSIZE + x % BSIZE && off + tot == bn * BSIZE + (off + tot) % BSIZE;
      }
    }
    assert forall x :: off + tot <= x < off + tot + m ==> x / BSIZE == bn;
  }

  /** The store of one turn of writei's loop, after bmap. */
  ghost predicate Stored(blk: seq<Block>, ip: Inode, blk': seq<Block>, cur: int, data: seq<byte>)
    requires |ip.addrs| == NDIRECT + 1
  {
    && 0 <= cur && 0 < |data| <= BSIZE - cur % BSIZE && cur + |data| <= MAXFILE * BSIZE
    && var b := Ref(blk, ip, DataSlot(cur / BSIZE));
       && 0 < b < |blk| && |blk[b]| == BSIZE
       && blk' == blk[b := Patch(blk[b], cur % BSIZE, data, 0, |data|)]
  }

  lemma StoreConsistent(sb: Super, blk: seq<Block>, ino: seq<Inode>, i: int, blk': seq<Block>, cur: int,
                        data: seq<byte>)
    requires Consistent(sb, blk, ino, {}) && 0 <= i < |ino| && Stored(blk, ino[i], blk', cur, data)
    ensures Consistent(sb, blk', ino, {}) && SameRefs(blk, ino, blk', ino)
    ensures forall j :: 0 <= j < |ino| && j != i ==> Keeps(blk, ino[j], blk', ino[j])
    ensures forall k :: 0 <= k < NSLOT && k != DataSlot(cur / BSIZE) ==>
      Ref(blk, ino[i], k) != Ref(blk, ino[i], DataSlot(cur / BSIZE))
  {
    hide Ref, Used;
    var b := Ref(blk, ino[i], DataSlot(cur / BSIZE));
    WriteDataStep(sb, blk, ino, {}, i, DataSlot(cur / BSIZE), Patch(blk[b], cur % BSIZE, data, 0, |data|));
  }

  lemma OthersKept(blk0: seq<Block>, ino0: seq<Inode>, blk: seq<Block>, blk': seq<Block>, ino: seq<Inode>, i: int)
    requires Shaped(ino0) && Shaped(ino) && KeepsAll(blk0, ino0, blk, ino) && |blk'| == |blk|
    requires forall j :: 0 <= j < |ino| && j != i ==> Keeps(blk, ino[j], blk', ino[j])
    ensures forall j :: 0 <= j < |ino| && j != i ==> Keeps(blk0, ino0[j], blk', ino[j])
  {
  }

  lemma StoreWritten(blk0: seq<Block>, ip0: Inode, blk: seq<Block>, ip: Inode, blk': seq<Block>, cur: int,
                     data: seq<byte>)
    requires |ip0.addrs| == NDIRECT + 1 && |ip.addrs| == NDIRECT + 1 && |blk| == |blk0|
    requires Keeps(blk0, ip0, blk, ip) && Stored(blk, ip, blk', cur, data)
    requires forall k :: 0 <= k < NSLOT ==> Ref(blk', ip, k) == Ref(blk, ip, k)
    requires forall k :: 0 <= k < NSLOT && k != DataSlot(cur / BSIZE) ==>
      Ref(blk, ip, k) != Ref(blk, ip, DataSlot(cur / BSIZE))
    ensures Written(blk0, ip0, blk', ip, cur, |data|, data)
  {
    hide Ref, ByteAt;
    assert Written(blk0, ip0, blk0, ip0, cur, 0, data);
    WrittenBmap(blk0, ip0, blk0, ip0, blk, ip, cur, 0, data);
    WrittenStore(blk0, ip0, blk, ip, blk', cur, 0, |data|, data);
  }

  /** Two stretches written one after the other. */
  lemma WrittenCompose(blk0: seq<Block>, ip0: Inode, blk1: seq<Block>, ip1: Inode, blk2: seq<Block>, ip2: Inode,
                       off: int, tot: int, m: int, src: seq<byte>)
    requires |ip0.addrs| == NDIRECT + 1 && |ip1.addrs| == NDIRECT + 1 && |ip2.addrs| == NDIRECT + 1
    requires 0 <= off && 0 <= tot && 0 <= m && tot + m <= |src| && off + tot + m <= MAXFILE * BSIZE
    requires Written(blk0, ip0, blk1, ip1, off, tot, src)
    requires Written(blk1, ip1, blk2, ip2, off + tot, m, src[tot..tot + m])
    ensures Written(blk0, ip0, blk2, ip2, off, tot + m, src)
  {
  }

  /** Blocks that n bytes from off reach into. */
  function Span(off: int, n: int): int
  {
    if n <= 0 then 0 else (off + n - 1) / BSIZE - off / BSIZE + 1
  }

  lemma SpanStep(off: int, tot: int, m: int)
    requires 0 <= off && 0 <= tot && 0 < m <= BSIZE - (off + tot) % BSIZE
    requires tot == 0 || (off + tot) % BSIZE == 0
    ensures Span(off, tot + m) == Span(off, tot) + 1
  {
  }

  /** After all n bytes: the content is the old one with src spliced in. */
  lemma WrittenContent(blk0: seq<Block>, ip0: Inode, blk: seq<Block>, ip: Inode, off: int, src: seq<byte>)
    requires |ip0.addrs| == NDIRECT + 1 && |ip.addrs| == NDIRECT + 1
    requires NoHoles(blk0, ip0) && 0 <= off <= ip0.size && off + |src| <= MAXFILE * BSIZE
    requires Written(blk0, ip0, blk, ip, off, |src|, src)
    requires ip.size == if off + |src| > ip0.size then off + |src| else ip0.size
    ensures NoHoles(blk, ip)
    ensures Content(blk, ip) == Splice(Content(blk0, ip0), off, src)
  {
    hide Ref, ByteAt;
    var now, want := Content(blk, ip), Splice(Content(blk0, ip0), off, src);
    forall x | 0 <= x < ip.size ensures now[x] == want[x] {
      assert x / BSIZE * BSIZE <= x;
      if !(off <= x < off + |src|) {
        assert Ref(blk0, ip0, DataSlot(x / BSIZE)) != 0;
      }
    }
    forall bn | 0 <= bn < MAXFILE && bn * BSIZE < ip.size ensures Ref(blk, ip, DataSlot(bn)) != 0 {
      if bn * BSIZE >= ip0.size {
        assert bn * BSIZE / BSIZE == bn;
      }
    }
  }

  /** What writei changes on its way: blocks, in-memory inodes, the set of blocks logged and the log_write calls. */
  datatype State = State(blk: seq<Block>, ino: seq<Inode>, logged: set<int>, calls: seq<int>)

  /** From s to s', only blocks passed to log_write changed; the new calls are for blocks from lo up to end. */
  ghost predicate Logs(lo: int, end: int, s: State, s': State)
  {
    && |s'.blk| == |s.blk| && s.calls <= s'.calls
    && (forall b :: 0 <= b < |s.blk| && b !in s'.calls ==> s'.blk[b] == s.blk[b])
    && (forall b :: 0 <= b < |s.blk| && b < lo ==> s'.blk[b] == s.blk[b])
    && (forall k :: |s.calls| <= k < |s'.calls| ==> lo <= s'.calls[k] < end)
    && (Listed(s) ==> Listed(s'))
  }

  ghost predicate Listed(s: State)
  {
    forall b :: b in s.logged <==> b in s.calls
  }

  lemma LogsTrans(lo: int, end: int, s1: State, s2: State, s3: State)
    requires Logs(lo, end, s1, s2) && Logs(lo, end, s2, s3)
    ensures Logs(lo, end, s1, s3)
  {
    hide Listed;
    forall b | 0 <= b < |s1.blk| && b !in s3.calls ensures s3.blk[b] == s1.blk[b] {
      assert b !in s2.calls;
    }
  }

  /** One block is stored to and logged. */
  lemma LogsOne(lo: int, end: int, s: State, s': State, b: int, v: Block)
    requires 0 <= b < |s.blk| && lo <= b < end
    requires s'.blk == s.blk[b := v] && s'.calls == s.calls + [b] && s'.logged == s.logged + {b}
    ensures Logs(lo, end, s, s')
  {
    assert s'.calls[|s.calls|] == b;
    forall x ensures x in s'.calls <==> x in s.calls || x == b {
    }
  }

  /** balloc. */
  lemma LogsAlloc(sb: Super, s: State, s': State, b: int)
    requires Geometry(sb, s.blk) && sb.datastart <= b < sb.size && 0 <= BBlock(sb, b) < |s.blk|
    requires s'.blk == Alloced(sb, s.blk, b) && s'.calls == s.calls + [BBlock(sb, b), b]
    requires s'.logged == s.logged + {BBlock(sb, b), b}
    ensures Logs(sb.bmapstart, sb.size, s, s')
  {
    hide Logs, SetBit;
    BitmapBlock(sb, s.blk, b);
    var bp := BBlock(sb, b);
    var v := SetBit(s.blk[bp], b % BPB, true);
    var mid := State(s.blk[bp := v], s.ino, s.logged + {bp}, s.calls + [bp]);
    LogsOne(sb.bmapstart, sb.size, s, mid, bp, v);
    assert s'.calls == mid.calls + [b];
    LogsOne(sb.bmapstart, sb.size, mid, s', b, ZeroBlock);
    LogsTrans(sb.bmapstart, sb.size, s, mid, s');
  }

  lemma LogsInode(lo: int, end: int, s: State, s': State, ino: seq<Inode>)
    requires Logs(lo, end, s, s')
    ensures Logs(lo, end, s, s'.(ino := ino))
  {
  }

  /** A store to an inode block leaves every file's bytes alone. */
  lemma UpdatedContent(sb: Super, blk: seq<Block>, ino: seq<Inode>, i: int, ip: Inode)
    requires Consistent(sb, blk, ino, {}) && 0 <= i < |ino| && i < sb.ninodes && Storable(ip)
    ensures forall j :: 0 <= j < |ino| ==> Content(Updated(sb, blk, i, ip), ino[j]) == Content(blk, ino[j])
  {
    hide Used, Content, PutInode, Storable;
    UpdatedStep(sb, blk, ino, {}, i, ip);
    InodeBlock(sb, blk, i);
    hide Ref;
    forall j | 0 <= j < |ino| ensures Content(Updated(sb, blk, i, ip), ino[j]) == Content(blk, ino[j]) {
      KeepsContent(blk, ino[j], Updated(sb, blk, i, ip), ino[j]);
    }
  }

  lemma LogsNone(lo: int, end: int, s: State, s': State)
    requires s'.blk == s.blk && s'.calls == s.calls && s'.logged == s.logged
    ensures Logs(lo, end, s, s')
  {
  }

  /** The bound on what a write logs beyond two blocks per file block. */
  function Extra(off: int): int
  {
    if off % BSIZE == 0 then 3 else 2
  }

  lemma LogsWiden(sb: Super, s: State, s': State)
    requires Logs(sb.bmapstart, sb.size, s, s') && sb.inodestart <= sb.bmapstart
    ensures Logs(sb.inodestart, sb.size, s, s')
  {
  }

  /** The write loop leaves the inode blocks alone. */
  lemma LogsDisk(sb: Super, s: State, s': State, i: int, end: int)
    requires Consistent(sb, s.blk, s.ino, {}) && 0 <= i < |s'.ino| == |s.ino|
    requires Consistent(sb, s'.blk, Grown(s'.ino, i, end), {}) && Logs(sb.bmapstart, sb.size, s, s')
    ensures Geometry(sb, s.blk) && Geometry(sb, s'.blk) && |s.ino| <= sb.ninodes && sb.inodestart <= sb.bmapstart
    ensures DiskInodes(sb, s'.blk, |s.ino|) == DiskInodes(sb, s.blk, |s.ino|)
  {
    hide Listed;
    SameInodes(sb, s.blk, s'.blk, |s.ino|);
  }

  /** Whenever log_write is called, the log holds at most most blocks that were not logged in s. */
  ghost predicate Spaced(s: State, calls: seq<int>, most: int)
  {
    forall k :: |s.calls| <= k < |calls| ==> |Elems(calls[..k]) - s.logged| <= most
  }

  /** A transaction as the log sees it: only blocks it logged changed, all outside the log area, and at every
      log_write fewer than cap blocks are in the log. */
  ghost predicate Chunked(sb: Super, blk0: seq<Block>, blk: seq<Block>, calls: seq<int>, cap: int)
  {
    && |blk| == |blk0| && (forall b :: 0 <= b < |blk| && b !in calls ==> blk[b] == blk0[b])
    && (forall k :: 0 <= k < |calls| ==> sb.inodestart <= calls[k] < sb.size && |Elems(calls[..k])| < cap)
  }

  lemma ChunkedFrom(sb: Super, s: State, s': State, most: int, cap: int)
    requires Logs(sb.inodestart, sb.size, s, s') && s.calls == [] && s.logged == {} && most < cap
    requires Spaced(s, s'.calls, most)
    ensures Chunked(sb, s.blk, s'.blk, s'.calls, cap)
  {
    forall k | 0 <= k < |s'.calls| ensures |Elems(s'.calls[..k])| < cap {
      assert Elems(s'.calls[..k]) - s.logged == Elems(s'.calls[..k]);
    }
  }

  lemma SpacedNone(s: State, most: int)
    ensures Spaced(s, s.calls, most)
  {
  }

  /** Calls that log few blocks altogether are spaced, and one more after them is. */
  lemma SpacedLoop(sb: Super, s: State, s': State, b: int, most: int)
    requires Logs(sb.bmapstart, sb.size, s, s') && Listed(s) && |s'.logged - s.logged| <= most
    ensures Spaced(s, s'.calls, most) && Spaced(s, s'.calls + [b], most)
  {
    forall k | 0 <= k <= |s'.calls| ensures |Elems(s'.calls[..k]) - s.logged| <= most {
      ElemsPrefix(s'.calls, k);
      CardSubset(Elems(s'.calls[..k]) - s.logged, s'.logged - s.logged);
    }
    forall k | |s.calls| <= k < |s'.calls + [b]| ensures |Elems((s'.calls + [b])[..k]) - s.logged| <= most {
      assert (s'.calls + [b])[..k] == s'.calls[..k];
    }
  }

  /** The blocks in a list of log_write calls. */
  ghost function Elems(calls: seq<int>): set<int>
  {
    set b | b in calls
  }

  /** Whatever the calls before, no more blocks are in the log than at the end. */
  lemma ElemsPrefix(calls: seq<int>, k: int)
    requires 0 <= k <= |calls|
    ensures Elems(calls[..k]) <= Elems(calls)
  {
  }

  /** One turn of writei's loop, storing data at cur. */
  ghost predicate Turn(sb: Super, s: State, s': State, i: int, cur: int, data: seq<byte>, addr: int, bm: set<int>)
    requires Consistent(sb, s.blk, s.ino, {}) && 0 <= i < |s.ino|
    requires 0 <= cur && 0 < |data| <= BSIZE - cur % BSIZE && cur + |data| <= MAXFILE * BSIZE
  {
    && Consistent(sb, s'.blk, s'.ino, {}) && |s'.ino| == |s.ino| && s'.ino[i].size == s.ino[i].size
    && Written(s.blk, s.ino[i], s'.blk, s'.ino[i], cur, |data|, data)
    && (forall j :: 0 <= j < |s.ino| && j != i ==> s'.ino[j] == s.ino[j] && Keeps(s.blk, s.ino[j], s'.blk, s'.ino[j]))
    && addr == Ref(s'.blk, s'.ino[i], DataSlot(cur / BSIZE)) && addr in s'.logged
    && s.logged <= s'.logged <= s.logged + {addr} + Indirect(s'.ino[i]) + bm
    && (Ref(s.blk, s.ino[i], DataSlot(cur / BSIZE)) != 0 ==> s'.ino == s.ino && bm == {})
    && |bm| <= 1 + NewIndirect(s.ino[i], s'.ino[i])
    && (bm == {} ==> s'.ino == s.ino)
    && (s.ino[i].addrs[NDIRECT] != 0 ==> s'.ino[i].addrs[NDIRECT] == s.ino[i].addrs[NDIRECT])
  }

  /** After tot bytes of writei's loop. */
  ghost predicate SoFar(sb: Super, s0: State, s: State, i: int, off: int, tot: int, src: seq<byte>, t: Tally)
  {
    && 0 <= i < |s0.ino| == |s.ino| && 0 <= tot <= |src| && 0 <= off && off + |src| <= MAXFILE * BSIZE
    && Consistent(sb, s0.blk, s0.ino, {}) && off <= s0.ino[i].size
    && Consistent(sb, s.blk, s.ino, {}) && s.ino[i].size == s0.ino[i].size
    && Written(s0.blk, s0.ino[i], s.blk, s.ino[i], off, tot, src)
    && (forall j :: 0 <= j < |s.ino| && j != i ==> s.ino[j] == s0.ino[j] && Keeps(s0.blk, s0.ino[j], s.blk, s.ino[j]))
    && (tot == 0 || tot == |src| || (off + tot) % BSIZE == 0)
    && (off + tot <= s0.ino[i].size ==> s.ino == s0.ino)
    && Counted(s0.logged, s0.ino[i], s.logged, s.ino[i], off, tot, t)
    && s0.logged <= s.logged
    && (forall x :: off <= x < off + tot ==> Ref(s.blk, s.ino[i], DataSlot(x / BSIZE)) in s.logged)
  }

  lemma SoFarStart(sb: Super, s: State, i: int, off: int, src: seq<byte>)
    requires Consistent(sb, s.blk, s.ino, {}) && 0 <= i < |s.ino|
    requires 0 <= off <= s.ino[i].size && off + |src| <= MAXFILE * BSIZE
    ensures SoFar(sb, s, s, i, off, 0, src, Tally({}, {}, 0))
  {
  }

  /** Below the old size, and in a first block that was already begun, a turn allocates nothing. */
  lemma QuietTurn(sb: Super, s: State, s': State, i: int, off: int, cur: int, data: seq<byte>, addr: int, bm: set<int>)
    requires Consistent(sb, s.blk, s.ino, {}) && 0 <= i < |s.ino| && 0 <= off <= s.ino[i].size
    requires 0 <= cur && 0 < |data| <= BSIZE - cur % BSIZE && cur + |data| <= MAXFILE * BSIZE
    requires Turn(sb, s, s', i, cur, data, addr, bm)
    ensures cur < s.ino[i].size ==> s'.ino == s.ino && bm == {}
    ensures cur == off && off % BSIZE != 0 ==> bm == {}
  {
  }

  lemma SoFarStep(sb: Super, s0: State, s: State, s': State, i: int, off: int, tot: int, m: int, src: seq<byte>,
                  t: Tally, addr: int, bm: set<int>) returns (t': Tally)
    requires SoFar(sb, s0, s, i, off, tot, src, t) && tot < |src|
    requires m == Piece(off + tot, |src| - tot)
    requires Turn(sb, s, s', i, off + tot, src[tot..tot + m], addr, bm)
    ensures SoFar(sb, s0, s', i, off, tot + m, src, t')
  {
    hide Used, Ref, ByteAt, Keeps, Consistent, Written, Counted;
    Sizes(sb, s0.blk, s0.ino);
    Sizes(sb, s.blk, s.ino);
    Sizes(sb, s'.blk, s'.ino);
    QuietTurn(sb, s, s', i, off, off + tot, src[tot..tot + m], addr, bm);
    WrittenCompose(s0.blk, s0.ino[i], s.blk, s.ino[i], s'.blk, s'.ino[i], off, tot, m, src);
    t' := CountedStep(s0.logged, s0.ino[i], s.logged, s.ino[i], s'.logged, s'.ino[i], off, tot, m, t, addr, bm);
    OthersStill(s0.blk, s.blk, s'.blk, s.ino, s'.ino, i);
    WrittenRefs(s0.blk, s0.ino[i], s.blk, s.ino[i], off, tot, src);
    StillLogged(s, s', i, off, tot, m, src);
  }

  /** What was logged for the earlier bytes stays logged. */
  lemma StillLogged(s: State, s': State, i: int, off: int, tot: int, m: int, src: seq<byte>)
    requires 0 <= i < |s.ino| == |s'.ino| && Shaped(s.ino) && Shaped(s'.ino)
    requires 0 <= off && 0 <= tot && 0 < m <= BSIZE - (off + tot) % BSIZE && tot + m <= |src|
    requires off + tot + m <= MAXFILE * BSIZE
    requires Written(s.blk, s.ino[i], s'.blk, s'.ino[i], off + tot, m, src[tot..tot + m])
    requires s.logged <= s'.logged && Ref(s'.blk, s'.ino[i], DataSlot((off + tot) / BSIZE)) in s'.logged
    requires forall x :: off <= x < off + tot ==>
      Ref(s.blk, s.ino[i], DataSlot(x / BSIZE)) != 0 && Ref(s.blk, s.ino[i], DataSlot(x / BSIZE)) in s.logged
    ensures forall x :: off <= x < off + tot + m ==> Ref(s'.blk, s'.ino[i], DataSlot(x / BSIZE)) in s'.logged
  {
  }

  lemma WrittenRefs(blk0: seq<Block>, ip0: Inode, blk: seq<Block>, ip: Inode, off: int, tot: int, src: seq<byte>)
    requires |ip0.addrs| == NDIRECT + 1 && |ip.addrs| == NDIRECT + 1
    requires 0 <= off && 0 <= tot <= |src| && off + tot <= MAXFILE * BSIZE
    requires Written(blk0, ip0, blk, ip, off, tot, src)
    ensures forall x :: off <= x < off + tot ==> Ref(blk, ip, DataSlot(x / BSIZE)) != 0
  {
  }

  /** m = min(n - tot, BSIZE - off % BSIZE). */
  function Piece(cur: int, left: int): (m: int)
    requires 0 <= cur && 0 < left
    ensures 0 < m <= left && m <= BSIZE - cur % BSIZE
    ensures m == left || (cur + m) % BSIZE == 0
  {
    if left < BSIZE - cur % BSIZE then left else BSIZE - cur % BSIZE
  }

  /** writei may take its next turn. */
  lemma SoFarReady(sb: Super, s0: State, s: State, i: int, off: int, tot: int, src: seq<byte>, t: Tally)
    requires SoFar(sb, s0, s, i, off, tot, src, t)
    ensures Consistent(sb, s.blk, s.ino, {}) && 0 <= i < |s.ino| && 0 <= off && 0 <= tot <= |src|
    ensures off + |src| <= MAXFILE * BSIZE
  {
  }

  lemma DataBlock(sb: Super, blk: seq<Block>, ino: seq<Inode>, i: int, k: int)
    requires Consistent(sb, blk, ino, {}) && 0 <= i < |ino| && 0 <= k < NSLOT && Ref(blk, ino[i], k) != 0
    ensures sb.datastart <= Ref(blk, ino[i], k) < |blk| && |blk[Ref(blk, ino[i], k)]| == BSIZE && 0 < sb.datastart
    ensures Shaped(ino) && |blk| == sb.size
  {
  }

  /** bmap and then the store, seen from before bmap. */
  lemma StoreTurn(sb: Super, s0: State, s1: State, s: State, i: int, cur: int, data: seq<byte>, b: int, bm: set<int>)
    requires Consistent(sb, s0.blk, s0.ino, {}) && Consistent(sb, s1.blk, s1.ino, {}) && 0 <= i < |s0.ino| == |s1.ino|
    requires Shaped(s0.ino) && Shaped(s1.ino) && KeepsAll(s0.blk, s0.ino, s1.blk, s1.ino)
    requires forall j :: 0 <= j < |s1.ino| && j != i ==> s1.ino[j] == s0.ino[j]
    requires Stored(s1.blk, s1.ino[i], s.blk, cur, data) && b == Ref(s1.blk, s1.ino[i], DataSlot(cur / BSIZE))
    requires s.ino == s1.ino && s.logged == s1.logged + {b}
    requires s0.logged <= s1.logged <= s0.logged + {b} + Indirect(s1.ino[i]) + bm
    requires Ref(s0.blk, s0.ino[i], DataSlot(cur / BSIZE)) != 0 ==> s1.ino == s0.ino && bm == {}
    requires |bm| <= 1 + NewIndirect(s0.ino[i], s1.ino[i])
    requires bm == {} ==> s1.ino == s0.ino
    requires s0.ino[i].addrs[NDIRECT] != 0 ==> s1.ino[i].addrs[NDIRECT] == s0.ino[i].addrs[NDIRECT]
    ensures Turn(sb, s0, s, i, cur, data, b, bm)
  {
    hide Used, Ref, ByteAt, Consistent, Written, Keeps;
    Sizes(sb, s1.blk, s.ino);
    StoreConsistent(sb, s1.blk, s.ino, i, s.blk, cur, data);
    StoreWritten(s0.blk, s0.ino[i], s1.blk, s.ino[i], s.blk, cur, data);
    OthersKept(s0.blk, s0.ino, s1.blk, s.blk, s.ino, i);
  }

  /** Bit bi of the bitmap block for b0 is that of block b0 + bi. */
  lemma BitAt(sb: Super, blk: seq<Block>, b0: int, bi: int)
    requires Geometry(sb, blk) && 0 <= b0 && b0 % BPB == 0 && 0 <= bi < BPB && b0 + bi < sb.size
    ensures BBlock(sb, b0 + bi) == BBlock(sb, b0) && sb.size == |blk|
    ensures 0 <= BBlock(sb, b0) < |blk| && |blk[BBlock(sb, b0)]| == BSIZE
    ensures Used(sb, blk, b0 + bi) <==> GetBit(blk[BBlock(sb, b0)], bi)
    ensures Alloced(sb, blk, b0 + bi)
         == blk[BBlock(sb, b0) := SetBit(blk[BBlock(sb, b0)], bi, true)][b0 + bi := ZeroBlock]
  {
    hide GetBit, SetBit;
    assert (b0 + bi) / BPB == b0 / BPB && (b0 + bi) % BPB == bi;
  }

  class Fs {
    const sb: Super
    var blk: seq<Block>      // blocks, as bread shows them
    var ino: seq<Inode>      // in-memory inodes
    var calls: seq<int>      // log_write calls since the last transaction began
    ghost var logged: set<int>

    /** A mounted image with n inodes, read from their blocks; that it is consistent is up to whoever made it. */
    constructor Mount(super: Super, blocks: seq<Block>, n: nat)
      requires Geometry(super, blocks) && n <= super.ninodes
      requires Consistent(super, blocks, DiskInodes(super, blocks, n), {})
      ensures sb == super && blk == blocks && Consistent(sb, blk, ino, {}) && |ino| == n && Disk() == ino
      ensures calls == [] && logged == {}
      ensures forall j :: 0 <= j < n ==>
        0 <= sb.inodestart + j / 8 < |blk| && LiesAt(blk[sb.inodestart + j / 8], j % 8, ino[j])
    {
      sb, blk, ino, calls, logged := super, blocks, DiskInodes(super, blocks, n), [], {};
      new;
      hide LiesAt;
      forall j | 0 <= j < n
        ensures 0 <= sb.inodestart + j / 8 < |blk| && LiesAt(blk[sb.inodestart + j / 8], j % 8, ino[j])
      {
        DiskInodesLie(sb, blk, n, j);
      }
    }

    /** The inodes in the inode blocks. */
    ghost function Disk(): (d: seq<Inode>)
      requires Consistent(sb, blk, ino, {})
      reads this
      ensures |d| == |ino|
    {
      DiskInodes(sb, blk, |ino|)
    }

    ghost function Now(): State
      reads this
    {
      State(blk, ino, logged, calls)
    }

    /** Allocate and zero the first free block.  panic: "balloc: out of blocks". */
    method Balloc() returns (b: int, panic: bool)
      requires Geometry(sb, blk)
      modifies this`blk, this`logged, this`calls
      ensures panic <==> forall x :: 0 <= x < sb.size ==> old(Used(sb, blk, x))
      ensures panic ==> blk == old(blk) && calls == old(calls) && logged == old(logged)
      ensures !panic ==>
        && 0 <= b < sb.size && 0 <= BBlock(sb, b) < |blk|
        && old(!Used(sb, blk, b)) && (forall x :: 0 <= x < b ==> old(Used(sb, blk, x)))
        && blk == old(Alloced(sb, blk, b))
        && logged == old(logged) + {BBlock(sb, b), b} && calls == old(calls) + [BBlock(sb, b), b]
    {
      hide GetBit, SetBit, Used, Alloced, BBlock, Geometry;
      var b0 := 0;
      while b0 < sb.size
        invariant b0 >= 0 && b0 % BPB == 0
        invariant blk == old(blk) && logged == old(logged) && calls == old(calls)
        invariant forall x :: 0 <= x < b0 && x < sb.size ==> Used(sb, blk, x)
        decreases sb.size - b0
      {
        BitAt(sb, blk, b0, 0);
        var bp := BBlock(sb, b0);
        var bi := 0;
        while bi < BPB && b0 + bi < sb.size
          invariant 0 <= bi <= BPB
          invariant blk == old(blk) && logged == old(logged) && calls == old(calls)
          invariant forall x :: 0 <= x < b0 + bi && x < sb.size ==> Used(sb, blk, x)
        {
          BitAt(sb, blk, b0, bi);
          if !GetBit(blk[bp], bi) {
            b := b0 + bi;
            blk := blk[bp := SetBit(blk[bp], bi, true)];
            logged, calls := logged + {bp}, calls + [bp];
            blk := blk[b := ZeroBlock];
            logged, calls := logged + {b}, calls + [b];
            return b, false;
          }
          bi := bi + 1;
        }
        b0 := b0 + BPB;
      }
      return 0, true;
    }

    /** Free a block.  panic: "freeing free block". */
    method Bfree(b: int) returns (panic: bool)
      requires Geometry(sb, blk) && 0 <= b < sb.size
      modifies this`blk, this`logged, this`calls
      ensures 0 <= BBlock(sb, b) < |blk|
      ensures panic <==> old(!Used(sb, blk, b))
      ensures panic ==> blk == old(blk)
      ensures !panic ==> blk == old(Freed(sb, blk, b))
      ensures !panic ==> logged == old(logged) + {BBlock(sb, b)} && calls == old(calls) + [BBlock(sb, b)]
    {
      hide GetBit, SetBit;
      BitmapBlock(sb, blk, b);
      var bp, bi := BBlock(sb, b), b % BPB;
      if !GetBit(blk[bp], bi) {
        return true;
      }
      blk := blk[bp := SetBit(blk[bp], bi, false)];
      logged, calls := logged + {bp}, calls + [bp];
      return false;
    }

    /** ip->addrs[k] = balloc(), for an empty k. */
    method AllocAddr(i: int, k: int) returns (addr: int, panic: bool)
      requires Consistent(sb, blk, ino, {}) && 0 <= i < |ino|
      requires 0 <= k <= NDIRECT && ino[i].addrs[k] == 0
      modifies this`blk, this`ino, this`logged, this`calls
      ensures panic ==> blk == old(blk) && forall x :: 0 <= x < sb.size ==> Used(sb, blk, x)
      ensures !panic ==> Consistent(sb, blk, ino, {}) && KeepsAll(old(blk), old(ino), blk, ino)
      ensures !panic ==> addr != 0 && ino == old(ino)[i := SetAddr(old(ino[i]), k, addr)]
      ensures !panic ==> OneNewRef(old(blk), old(ino), blk, ino, i, k, addr)
      ensures !panic ==> 0 <= addr < |blk| && blk[addr] == ZeroBlock
      ensures !panic ==> logged == old(logged) + {BBlock(sb, addr), addr}
      ensures !panic ==> Logs(sb.bmapstart, sb.size, old(Now()), Now())
    {
      hide Logs;
      addr, panic := Balloc();
      if panic {
        return;
      }
      BallocStep(sb, old(blk), ino, {}, addr);
      LogsAlloc(sb, old(Now()), Now(), addr);
      ghost var blk1 := blk;
      assert {} + {addr} == {addr};
      SetAddrStep(sb, blk, ino, {addr}, i, k, addr);
      assert {addr} - {addr} == {};
      hide Ref, Used, Alloced;
      KeepsAllFrame(sb, old(blk), ino, {}, blk, addr);
      ino := ino[i := SetAddr(ino[i], k, addr)];
      assert KeepsAll(blk, old(ino), blk, ino);
      KeepsAllTrans(old(blk), old(ino), blk, old(ino), blk, ino);
      LogsInode(sb.bmapstart, sb.size, old(Now()), State(blk, old(ino), logged, calls), ino);
    }

    /** a[e] = balloc() in the indirect block of inode i, for an empty e. */
    method AllocEntry(i: int, e: int) returns (addr: int, panic: bool)
      requires Consistent(sb, blk, ino, {}) && 0 <= i < |ino| && ino[i].addrs[NDIRECT] != 0
      requires 0 <= e < NINDIRECT && Ref(blk, ino[i], NDIRECT + 1 + e) == 0
      modifies this`blk, this`logged, this`calls
      ensures panic ==> blk == old(blk) && forall x :: 0 <= x < sb.size ==> Used(sb, blk, x)
      ensures !panic ==> Consistent(sb, blk, ino, {}) && KeepsAll(old(blk), ino, blk, ino)
      ensures !panic ==> addr != 0 && OneNewRef(old(blk), ino, blk, ino, i, NDIRECT + 1 + e, addr)
      ensures !panic ==> 0 <= addr < |blk| && blk[addr] == ZeroBlock
      ensures !panic ==> logged == old(logged) + {BBlock(sb, addr), addr, ino[i].addrs[NDIRECT]}
      ensures !panic ==> Logs(sb.bmapstart, sb.size, old(Now()), Now())
    {
      hide Logs;
      var ind := ino[i].addrs[NDIRECT];
      IndirectMarked(sb, blk, ino, {}, i);
      addr, panic := Balloc();
      if panic {
        return;
      }
      hide Used, Ref, Consistent, Alloced, GetWord, SetWord;
      AllocedUsed(sb, old(blk), addr, addr);
      ghost var mid := Now();
      LogsAlloc(sb, old(Now()), mid, addr);
      blk := blk[ind := SetWord(blk[ind], e, addr)];
      logged, calls := logged + {ind}, calls + [ind];
      LogsOne(sb.bmapstart, sb.size, mid, Now(), ind, blk[ind]);
      LogsTrans(sb.bmapstart, sb.size, old(Now()), mid, Now());
      EntryStep(sb, old(blk), ino, i, e, addr, blk);
    }

    /** The e-th block that the indirect block of inode i names, allocated if it is not there. */
    method Entry(i: int, e: int) returns (addr: int, panic: bool, ghost bm: set<int>)
      requires Consistent(sb, blk, ino, {}) && 0 <= i < |ino| && ino[i].addrs[NDIRECT] != 0 && 0 <= e < NINDIRECT
      modifies this`blk, this`logged, this`calls
      ensures panic ==> forall x :: 0 <= x < sb.size ==> Used(sb, blk, x)
      ensures old(Ref(blk, ino[i], NDIRECT + 1 + e)) != 0 ==>
        !panic && blk == old(blk) && logged == old(logged) && calls == old(calls) && bm == {}
      ensures !panic ==> Consistent(sb, blk, ino, {}) && KeepsAll(old(blk), ino, blk, ino)
      ensures !panic ==> addr == Ref(blk, ino[i], NDIRECT + 1 + e) && addr != 0
      ensures !panic && old(Ref(blk, ino[i], NDIRECT + 1 + e)) == 0 ==>
        && 0 <= addr < |blk| && blk[addr] == ZeroBlock && bm == {BBlock(sb, addr)}
        && logged == old(logged) + {BBlock(sb, addr), addr, ino[i].addrs[NDIRECT]}
      ensures !panic ==> Logs(sb.bmapstart, sb.size, old(Now()), Now())
    {
      hide Used, GetWord, Consistent, Logs;
      LogsNone(sb.bmapstart, sb.size, Now(), Now());
      Sizes(sb, blk, ino);
      RefInside(sb, blk, ino, i, NDIRECT);
      bm := {};
      addr, panic := GetWord(blk[ino[i].addrs[NDIRECT]], e), false;
      assert addr == Ref(blk, ino[i], NDIRECT + 1 + e);
      if addr == 0 {
        addr, panic := AllocEntry(i, e);
        bm := {BBlock(sb, addr)};
      }
    }

    /** The disk block of a file's bn-th block, allocated if it is not there; bm is the bitmap blocks this logs. */
    method Bmap(i: int, bn: int) returns (addr: int, panic: bool, ghost bm: set<int>)
      requires Consistent(sb, blk, ino, {}) && 0 <= i < |ino| && 0 <= bn
      modifies this`blk, this`ino, this`logged, this`calls
      ensures panic ==> bn >= MAXFILE || forall x :: 0 <= x < sb.size ==> Used(sb, blk, x)
      ensures bn < MAXFILE && old(Ref(blk, ino[i], DataSlot(bn))) != 0 ==> !panic
      ensures !panic ==> bn < MAXFILE && Consistent(sb, blk, ino, {}) && KeepsAll(old(blk), old(ino), blk, ino)
      ensures !panic ==> addr == Ref(blk, ino[i], DataSlot(bn)) && addr != 0
      ensures !panic ==> forall j :: 0 <= j < |ino| && j != i ==> ino[j] == old(ino[j])
      ensures !panic && old(Ref(blk, ino[i], DataSlot(bn))) != 0 ==>
        blk == old(blk) && ino == old(ino) && logged == old(logged) && calls == old(calls) && bm == {}
      ensures !panic && old(Ref(blk, ino[i], DataSlot(bn))) == 0 ==> 0 <= addr < |blk| && blk[addr] == ZeroBlock
      ensures !panic ==> logged <= old(logged) + {addr} + Indirect(ino[i]) + bm
      ensures !panic ==> |bm| <= 1 + NewIndirect(old(ino[i]), ino[i])
      ensures !panic && bm == {} ==> ino == old(ino)
      ensures !panic ==> old(logged) <= logged
      ensures !panic && old(ino[i].addrs[NDIRECT]) != 0 ==> ino[i].addrs[NDIRECT] == old(ino[i].addrs[NDIRECT])
      ensures !panic ==> Logs(sb.bmapstart, sb.size, old(Now()), Now())
      ensures !panic ==> NamedBy(blk, ino[i], bn, addr)
    {
      hide Used, GetWord, Consistent, Logs, NamedBy;
      LogsNone(sb.bmapstart, sb.size, Now(), Now());
      Sizes(sb, blk, ino);
      bm := {};
      if bn < NDIRECT {
        addr := ino[i].addrs[bn];
        if addr == 0 {
          addr, panic := AllocAddr(i, bn);
          bm := {BBlock(sb, addr)};
          if !panic {
            NamedAt(sb, blk, ino, i, bn);
          }
          return;
        }
        NamedAt(sb, blk, ino, i, bn);
        assert KeepsAll(blk, ino, blk, ino);
        return addr, false, bm;
      }
      var e := bn - NDIRECT;
      if e >= NINDIRECT {
        return 0, true, bm;
      }
      if ino[i].addrs[NDIRECT] == 0 {
        addr, panic := AllocAddr(i, NDIRECT);
        if panic {
          return;
        }
        bm := {BBlock(sb, addr)};
      }
      ghost var blk1, ino1, mid := blk, ino, Now();
      assert KeepsAll(old(blk), old(ino), blk1, ino1);
      ghost var more;
      addr, panic, more := Entry(i, e);
      if panic {
        return;
      }
      bm := bm + more;
      Sizes(sb, blk, ino);
      NamedAt(sb, blk, ino, i, bn);
      KeepsAllTrans(old(blk), old(ino), blk1, ino1, blk, ino);
      LogsTrans(sb.bmapstart, sb.size, old(Now()), mid, Now());
      return addr, false, bm;
    }

    /** Read up to n bytes from off.  r is -1, or the number of bytes in dst. */
    method Readi(i: int, off: int, n: int) returns (r: int, dst: seq<byte>)
      requires Consistent(sb, blk, ino, {}) && 0 <= i < |ino|
      requires 0 <= off < UINT_RANGE && 0 <= n < UINT_RANGE
      modifies this`blk, this`ino, this`logged, this`calls
      ensures blk == old(blk) && ino == old(ino) && logged == old(logged) && calls == old(calls)
      ensures off > ino[i].size || off + n >= UINT_RANGE <==> r == -1
      ensures r != -1 ==>
        && r == (if off + n > ino[i].size then ino[i].size - off else n)
        && off + r <= |Content(blk, ino[i])| && dst == Content(blk, ino[i])[off..off + r]
    {
      hide Ref, Used, ByteAt, Consistent, Content;
      Sizes(sb, blk, ino);
      dst := [];
      if off > ino[i].size || (off + n) % UINT_RANGE < off {
        return -1, dst;
      }
      r := if off + n > ino[i].size then ino[i].size - off else n;
      ghost var content := Content(blk, ino[i]);
      var tot := 0;
      while tot < r
        invariant 0 <= tot <= r
        invariant blk == old(blk) && ino == old(ino) && logged == old(logged) && calls == old(calls)
        invariant dst == content[off..off + tot]
        decreases r - tot
      {
        var cur := off + tot;
        var m := Piece(cur, r - tot);
        ReadChunk(sb, blk, ino, i, cur, m);
        var b, panic, _ := Bmap(i, cur / BSIZE);
        dst := dst + blk[b][cur % BSIZE..cur % BSIZE + m];
        assert content[off..cur] + content[cur..cur + m] == content[off..cur + m];
        tot := tot + m;
      }
    }

    /** Copy the in-memory inode to its place in its inode block. */
    method Iupdate(i: int)
      requires Consistent(sb, blk, ino, {}) && 0 <= i < |ino|
      modifies this`blk, this`logged, this`calls
      ensures Consistent(sb, blk, ino, {}) && Disk() == old(Disk())[i := ino[i]]
      ensures forall j :: 0 <= j < |ino| ==> Content(blk, ino[j]) == old(Content(blk, ino[j]))
      ensures forall x :: 0 <= x < sb.size ==> (Used(sb, blk, x) <==> old(Used(sb, blk, x)))
      ensures logged == old(logged) + {IBlock(sb, i)} && calls == old(calls) + [IBlock(sb, i)]
      ensures Logs(sb.inodestart, sb.size, old(Now()), Now())
      ensures InPlace(old(blk), blk, sb.inodestart + i / 8, i % 8, ino[i])
    {
      hide Consistent, Logs, PutInode, DiskInode, Used, Content, Storable, InPlace;
      Sizes(sb, blk, ino);
      FitsDisk(sb, blk, ino, {}, i);
      InodeBlock(sb, blk, i);
      UpdatedStep(sb, blk, ino, {}, i, ino[i]);
      UpdatedInodes(sb, blk, i, ino[i], |ino|);
      UpdatedContent(sb, blk, ino, i, ino[i]);
      PutInodePlace(blk, IBlock(sb, i), i % IPB, ino[i]);
      var b := IBlock(sb, i);
      blk := blk[b := PutInode(blk[b], i % IPB, ino[i])];
      logged, calls := logged + {b}, calls + [b];
      LogsOne(sb.inodestart, sb.size, old(Now()), Now(), b, blk[b]);
    }

    /** One turn of writei's loop: m bytes into one block.  bm is the bitmap blocks it logged. */
    method WriteBlock(i: int, cur: int, data: seq<byte>) returns (panic: bool, ghost addr: int, ghost bm: set<int>)
      requires Consistent(sb, blk, ino, {}) && 0 <= i < |ino|
      requires 0 <= cur && 0 < |data| <= BSIZE - cur % BSIZE && cur + |data| <= MAXFILE * BSIZE
      modifies this`blk, this`ino, this`logged, this`calls
      ensures panic ==> forall x :: 0 <= x < sb.size ==> Used(sb, blk, x)
      ensures !panic ==> Turn(sb, old(Now()), Now(), i, cur, data, addr, bm)
      ensures !panic ==> Logs(sb.bmapstart, sb.size, old(Now()), Now())
    {
      hide Used, Ref, ByteAt, Patch, Consistent, Written, Keeps, Turn, Logs;
      var b: int;
      ghost var s0 := Now();
      Sizes(sb, blk, ino);
      b, panic, bm := Bmap(i, cur / BSIZE);
      addr := b;
      if panic {
        return;
      }
      ghost var s1 := Now();
      DataBlock(sb, blk, ino, i, DataSlot(cur / BSIZE));
      Sizes(sb, blk, ino);
      blk := blk[b := Patch(blk[b], cur % BSIZE, data, 0, |data|)];
      logged, calls := logged + {b}, calls + [b];
      StoreTurn(sb, s0, s1, Now(), i, cur, data, b, bm);
      LogsOne(sb.bmapstart, sb.size, s1, Now(), b, blk[b]);
      LogsTrans(sb.bmapstart, sb.size, s0, s1, Now());
    }

    /** writei's loop: all of src, block by block. */
    method WriteLoop(i: int, off: int, src: seq<byte>) returns (panic: bool, ghost t: Tally)
      requires Consistent(sb, blk, ino, {}) && 0 <= i < |ino|
      requires 0 <= off <= ino[i].size && off + |src| <= MAXFILE * BSIZE
      modifies this`blk, this`ino, this`logged, this`calls
      ensures panic ==> forall x :: 0 <= x < sb.size ==> Used(sb, blk, x)
      ensures !panic ==> SoFar(sb, old(Now()), Now(), i, off, |src|, src, t)
      ensures !panic ==> Logs(sb.bmapstart, sb.size, old(Now()), Now())
    {
      hide Used, Consistent, Turn, SoFar, Logs;
      ghost var s0 := Now();
      LogsNone(sb.bmapstart, sb.size, s0, s0);
      SoFarStart(sb, s0, i, off, src);
      t := Tally({}, {}, 0);
      panic := false;
      var n, tot := |src|, 0;
      while tot < n
        invariant 0 <= tot <= n && !panic
        invariant SoFar(sb, s0, Now(), i, off, tot, src, t) && Logs(sb.bmapstart, sb.size, s0, Now())
        decreases n - tot
      {
        var m := Piece(off + tot, n - tot);
        ghost var s := Now();
        ghost var addr, bm;
        SoFarReady(sb, s0, s, i, off, tot, src, t);
        panic, addr, bm := WriteBlock(i, off + tot, src[tot..tot + m]);
        if panic {
          return;
        }
        t := SoFarStep(sb, s0, s, Now(), i, off, tot, m, src, t, addr, bm);
        LogsTrans(sb.bmapstart, sb.size, s0, s, Now());
        tot := tot + m;
      }
    }

    /**
    Write all of src at off.  r is -1 for a bad range, else |src|; panic means the disk
    filled up on the way.
    */
    method Writei(i: int, off: int, src: seq<byte>) returns (r: int, panic: bool)
      requires Consistent(sb, blk, ino, {}) && 0 <= i < |ino|
      requires 0 <= off < UINT_RANGE && |src| < UINT_RANGE
      modifies this
      ensures panic ==> forall x :: 0 <= x < sb.size ==> Used(sb, blk, x)
      ensures !panic ==>
        (r == -1 <==> off > old(ino[i].size) || off + |src| >= UINT_RANGE || off + |src| > MAXFILE * BSIZE)
      ensures !panic && r == -1 ==> blk == old(blk) && ino == old(ino) && logged == old(logged) && calls == old(calls)
      ensures !panic ==> Consistent(sb, blk, ino, {}) && |ino| == old(|ino|)
      ensures !panic && r != -1 ==> r == |src| && Content(blk, ino[i]) == Splice(old(Content(blk, ino[i])), off, src)
      ensures !panic && r != -1 ==> forall j :: 0 <= j < |ino| && j != i ==>
        ino[j] == old(ino[j]) && Content(blk, ino[j]) == old(Content(blk, ino[j]))
      ensures !panic ==> forall j :: 0 <= j < |ino| && j != i ==> Disk()[j] == old(Disk()[j])
      ensures !panic && old(Disk()[i] == ino[i]) ==> Disk()[i] == ino[i]
      ensures !panic ==> |logged - old(logged)| <= 2 * Span(off, |src|) + if off % BSIZE == 0 then 3 else 2
      ensures !panic && r != -1 ==> |logged| >= Span(off, |src|)
      ensures !panic ==> Logs(sb.inodestart, sb.size, old(Now()), Now())
      ensures !panic && old(Listed(Now())) ==> Spaced(old(Now()), calls, 2 * Span(off, |src|) + Extra(off) - 1)
    {
      hide Used, Ref, Consistent, SoFar, Content, Splice, Span, Logs, Listed, Spaced, DiskInodes, IBlock, Extra, Proper;
      Sizes(sb, blk, ino);
      panic := false;
      var n := |src|;
      SpacedNone(Now(), 2 * Span(off, n) + Extra(off) - 1);
      LogsNone(sb.inodestart, sb.size, Now(), Now());
      if off > ino[i].size || (off + n) % UINT_RANGE < off {
        SpanPositive(off, n);
        return -1, false;
      }
      if off + n > MAXFILE * BSIZE {
        SpanPositive(off, n);
        return -1, false;
      }
      ghost var s0 := Now();
      ghost var t;
      panic, t := WriteLoop(i, off, src);
      if panic {
        return 0, true;
      }
      ghost var s := Now();
      WriteDone(sb, s0, s, i, off, src, t);
      LogsDisk(sb, s0, s, i, off + n);
      LogsWiden(sb, s0, s);
      if old(Listed(Now())) {
        SpacedLoop(sb, s0, s, IBlock(sb, i), 2 * Span(off, n) + Extra(off) - 1);
      }
      if n > 0 && off + n > ino[i].size {
        ino := ino[i := ino[i].(size := off + n)];
        ghost var mid := Now();
        LogsInode(sb.inodestart, sb.size, s0, s, ino);
        Iupdate(i);
        LogsTrans(sb.inodestart, sb.size, s0, mid, Now());
      }
      return n, false;
    }

    /** One bfree of itrunc: b is a block of the inode being emptied. */
    method TruncOne(b: int, ghost ino0: seq<Inode>, ghost blk0: seq<Block>, ghost pend: set<int>, ghost all: set<int>)
      returns (panic: bool)
      requires Truncating(sb, blk0, blk, ino0, pend) && b in pend && pend <= all && GaveBack(sb, blk0, blk, all - pend)
      modifies this`blk, this`logged, this`calls
      ensures !panic && Truncating(sb, blk0, blk, ino0, pend - {b})
      ensures GaveBack(sb, blk0, blk, all - (pend - {b}))
    {
      hide Used, Ref, SetBit;
      BfreeStep(sb, blk, ino0, pend, b);
      ghost var blk1 := blk;
      panic := Bfree(b);
      forall x | 0 <= x < sb.size ensures Used(sb, blk, x) <==> x != b && old(Used(sb, blk, x)) {
        FreedUsed(sb, blk1, b, x);
      }
    }

    /** Give back every block of an inode and make it empty.  panic: "freeing free block", which is never reached. */
    method Itrunc(i: int) returns (panic: bool)
      requires Consistent(sb, blk, ino, {}) && 0 <= i < |ino|
      modifies this
      ensures !panic && Consistent(sb, blk, ino, {})
      ensures ino == old(ino)[i := Inode(0, NoBlocks)] && Disk() == old(Disk())[i := Inode(0, NoBlocks)]
      ensures forall x :: 0 <= x < sb.size ==>
        (Used(sb, blk, x) <==> old(Used(sb, blk, x)) && x !in old(BlocksOf(blk, ino[i])))
      ensures forall j :: 0 <= j < |ino| && j != i ==> Content(blk, ino[j]) == old(Content(blk, ino[j]))
    {
      hide Used, Ref, GetWord, Content, Consistent, Truncating, GaveBack, Left, BlocksOf, Cleared;
      Sizes(sb, blk, ino);
      ghost var blk0, ip0, ino0 := blk, ino[i], ino[i := Inode(0, NoBlocks)];
      TruncStart(sb, blk, ino, i);
      LeftIndirect(sb, blk0, ino, i);
      ClearedEnds(ip0.addrs);
      assert ino == ino0[i := Inode(ip0.size, ip0.addrs)];
      ghost var pend := Left(blk0, ip0, 0, true);
      panic := false;
      var k := 0;
      while k < NDIRECT
        invariant 0 <= k <= NDIRECT && !panic
        invariant ino == ino0[i := Inode(ip0.size, Cleared(ip0.addrs, k))]
        invariant pend == Left(blk0, ip0, k, true) && Truncating(sb, blk0, blk, ino0, pend)
        invariant GaveBack(sb, blk0, blk, BlocksOf(blk0, ip0) - pend)
      {
        var b := ino[i].addrs[k];
        LeftNext(sb, blk0, old(ino), i, k);
        DirectRef(blk0, ip0, k);
        ClearedNext(ip0.addrs, k);
        if b != 0 {
          panic := TruncOne(b, ino0, blk0, pend, BlocksOf(blk0, ip0));
          pend := pend - {b};
          ino := ino[i := SetAddr(ino[i], k, 0)];
        }
        k := k + 1;
      }
      DirectRef(blk0, ip0, NDIRECT);
      var ind := ino[i].addrs[NDIRECT];
      ClearedNext(ip0.addrs, NDIRECT);
      if ind != 0 {
        IndirectData(sb, blk0, blk, old(ino), ino0, pend, i);
        var e := 0;
        while e < NINDIRECT
          invariant 0 <= e <= NINDIRECT && !panic
          invariant ino == ino0[i := Inode(ip0.size, Cleared(ip0.addrs, NDIRECT))]
          invariant pend == Left(blk0, ip0, NDIRECT + 1 + e, true) && Truncating(sb, blk0, blk, ino0, pend)
          invariant |blk| == |blk0| && blk[ind] == blk0[ind]
          invariant GaveBack(sb, blk0, blk, BlocksOf(blk0, ip0) - pend)
        {
          var b := GetWord(blk[ind], e);
          LeftNext(sb, blk0, old(ino), i, NDIRECT + 1 + e);
          EntryRef(blk0, ip0, e);
          if b != 0 {
            panic := TruncOne(b, ino0, blk0, pend, BlocksOf(blk0, ip0));
            pend := pend - {b};
            IndirectData(sb, blk0, blk, old(ino), ino0, pend, i);
          }
          e := e + 1;
        }
        LeftLast(blk0, ip0);
        panic := TruncOne(ind, ino0, blk0, pend, BlocksOf(blk0, ip0));
        pend := pend - {ind};
        ino := ino[i := SetAddr(ino[i], NDIRECT, 0)];
      }
      ino := ino[i := ino[i].(size := 0)];
      assert pend == {} && ino == old(ino)[i := Inode(0, NoBlocks)];
      TruncDone(sb, blk0, blk, old(ino), i);
      Iupdate(i);
      return;
    }

    /** One transaction of filewrite: begin_op, writei, end_op.  count is the blocks it logged. */
    method FileChunk(i: int, off: int, data: seq<byte>, cap: int) returns (r: int, panic: bool, ghost count: int)
      requires Consistent(sb, blk, ino, {}) && 0 <= i < |ino|
      requires 0 <= off < UINT_RANGE && 6 <= cap && |data| <= ChunkMax(cap) && |data| < 0x8000_0000
      modifies this
      ensures panic ==> forall x :: 0 <= x < sb.size ==> Used(sb, blk, x)
      ensures !panic ==> Consistent(sb, blk, ino, {}) && |ino| == old(|ino|) && count <= cap
      ensures !panic && r != -1 ==> count >= Span(off, |data|)
      ensures !panic ==> r == if off > old(ino[i].size) || off + |data| > MAXFILE * BSIZE then -1 else |data|
      ensures !panic && r == -1 ==> blk == old(blk) && ino == old(ino) && calls == []
      ensures !panic && r != -1 ==> off + |data| <= ino[i].size
      ensures !panic && r != -1 ==> Content(blk, ino[i]) == Splice(old(Content(blk, ino[i])), off, data)
      ensures !panic ==> forall j :: 0 <= j < |ino| && j != i ==> Content(blk, ino[j]) == old(Content(blk, ino[j]))
      ensures !panic && old(Disk() == ino) ==> Disk() == ino
      ensures !panic ==> Chunked(sb, old(blk), blk, calls, cap)
    {
      hide Used, Ref, Consistent, Content, Splice, Span, ChunkMax, IBlock, Logs, Spaced, Chunked;
      Sizes(sb, blk, ino);
      SpliceLength(Content(blk, ino[i]), off, data);
      logged, calls := {}, [];
      ghost var s0 := Now();
      r, panic := Writei(i, off, data);
      count := |logged|;
      if !panic {
        ChunkFits(off, |data|, cap);
        assert logged - {} == logged;
        Sizes(sb, blk, ino);
        ChunkedFrom(sb, s0, Now(), 2 * Span(off, |data|) + Extra(off) - 1, cap);
      }
    }

    /**
    filewrite on an inode: n bytes in chunks sized to the log, cap being LOGSIZE.  off
    is the file offset afterwards, peak the most blocks any one chunk's transaction logged.
    */
    method Filewrite(i: int, off0: int, addr: seq<byte>, n: int, cap: int)
      returns (r: int, off: int, panic: bool, ghost peak: int)
      requires Consistent(sb, blk, ino, {}) && 0 <= i < |ino|
      requires 0 <= off0 < UINT_RANGE && n <= |addr| && n < 0x8000_0000 && 6 <= cap
      modifies this
      ensures panic ==> forall x :: 0 <= x < sb.size ==> Used(sb, blk, x)
      ensures !panic ==> peak <= cap
      ensures !panic ==> Consistent(sb, blk, ino, {}) && |ino| == old(|ino|)
      ensures !panic ==> 0 <= off - off0 <= |addr|
      ensures !panic ==> off == off0 + WrittenBytes(old(ino[i].size), off0, n, cap)
      ensures !panic ==> r == if n == off - off0 then n else -1
      ensures !panic ==> Content(blk, ino[i]) == Splice(old(Content(blk, ino[i])), off0, addr[..off - off0])
      ensures !panic ==> forall j :: 0 <= j < |ino| && j != i ==> Content(blk, ino[j]) == old(Content(blk, ino[j]))
      ensures !panic && old(Disk() == ino) ==> Disk() == ino
    {
      hide Used, Ref, Consistent, Content, Splice, Span, ChunkMax, WrittenBytes, IBlock, Fitting;
      Sizes(sb, blk, ino);
      var max := ChunkMax(cap);
      ChunkPositive(cap);
      var done := 0;
      off, panic, peak := off0, false, 0;
      ghost var stopped, room := false, MAXFILE * BSIZE - off0;
      ghost var content, size := Content(blk, ino[i]), ino[i].size;
      SpliceNone(content, off0);
      while done < n
        invariant 0 <= done && (done <= n || done == 0) && !panic && peak <= cap && off == off0 + done
        invariant Consistent(sb, blk, ino, {}) && |ino| == old(|ino|)
        invariant done == 0 ==> ino[i].size == size
        invariant done > 0 ==> off0 <= size && off <= ino[i].size && off <= MAXFILE * BSIZE
        invariant done == n || Fitting(room, max) == done + Fitting(room - done, max)
        invariant !stopped
        invariant Content(blk, ino[i]) == Splice(content, off0, addr[..done])
        invariant forall j :: 0 <= j < |ino| && j != i ==> Content(blk, ino[j]) == old(Content(blk, ino[j]))
        invariant old(Disk() == ino) ==> Disk() == ino
        decreases n - done
      {
        var n1 := if n - done > max then max else n - done;
        ghost var count;
        var r1: int;
        r1, panic, count := FileChunk(i, off, addr[done..done + n1], cap);
        peak := if count > peak then count else peak;
        if panic {
          return 0, off, true, peak;
        }
        if r1 < 0 {
          stopped := true;
          break;
        }
        SpliceTwice(content, off0, addr[..done], addr[done..done + n1]);
        assert addr[..done] + addr[done..done + n1] == addr[..done + n1];
        FittingNext(room - done, max);
        off := off + r1;
        done := done + r1;
      }
      r := if done == n then n else -1;
      AllOrChunks(size, off0, n, cap, done, stopped);
    }
  }

  /** The whole chunks of max bytes that fit in room. */
  function Fitting(room: int, max: int): (w: int)
    requires 0 < max
    ensures 0 <= w && (w <= room || w == 0)
    decreases room
  {
    if room < max then 0 else max + Fitting(room - max, max)
  }

  lemma FittingNext(room: int, max: int)
    requires 0 < max
    ensures room >= max ==> Fitting(room, max) == max + Fitting(room - max, max)
  {
  }

  /** Where filewrite's loop ends is where WrittenBytes says. */
  lemma AllOrChunks(size: int, off: int, n: int, cap: int, done: int, stopped: bool)
    requires 6 <= cap && 0 <= off && 0 <= done && (done <= n || done == 0) && ChunkMax(cap) > 0
    requires done > 0 ==> off <= size && off + done <= MAXFILE * BSIZE
    requires !stopped ==> done >= n
    requires stopped ==> done < n
    requires stopped ==>
      Fitting(MAXFILE * BSIZE - off, ChunkMax(cap)) == done + Fitting(MAXFILE * BSIZE - off - done, ChunkMax(cap))
    requires stopped && off <= size ==>
      off + done + (if n - done > ChunkMax(cap) then ChunkMax(cap) else n - done) > MAXFILE * BSIZE
    requires stopped && off > size ==> done == 0
    ensures done == WrittenBytes(size, off, n, cap)
  {
  }

  lemma ChunkPositive(cap: int)
    requires 6 <= cap
    ensures ChunkMax(cap) >= 512
  {
  }

  /** max = ((LOGSIZE-1-1-2) / 2) * 512. */
  function ChunkMax(cap: int): int
  {
    (cap - 1 - 1 - 2) / 2 * 512
  }

  /** How much filewrite writes: everything, or the whole chunks that fit the largest file. */
  function WrittenBytes(size: int, off: int, n: int, cap: int): int
    requires cap >= 6
  {
    if n <= 0 || off > size then 0
    else if off + n <= MAXFILE * BSIZE then n
    else Fitting(MAXFILE * BSIZE - off, ChunkMax(cap))
  }

  /** addrs after itrunc has been through its first k entries. */
  function Cleared(addrs: seq<int>, k: int): (r: seq<int>)
    requires |addrs| == NDIRECT + 1 && 0 <= k <= NDIRECT + 1
    ensures |r| == NDIRECT + 1
  {
    NoBlocks[..k] + addrs[k..]
  }

  lemma ClearedNext(addrs: seq<int>, k: int)
    requires |addrs| == NDIRECT + 1 && 0 <= k <= NDIRECT
    ensures Cleared(addrs, k)[k] == addrs[k]
    ensures Cleared(addrs, k + 1) == Cleared(addrs, k)[k := 0]
    ensures addrs[k] == 0 ==> Cleared(addrs, k + 1) == Cleared(addrs, k)
  {
  }

  lemma ClearedEnds(addrs: seq<int>)
    requires |addrs| == NDIRECT + 1
    ensures Cleared(addrs, 0) == addrs && Cleared(addrs, NDIRECT + 1) == NoBlocks
  {
  }

  /** The blocks in slots lo and up, and in the indirect slot if ind. */
  ghost function Left(blk: seq<Block>, ip: Inode, lo: int, ind: bool): set<int>
    requires |ip.addrs| == NDIRECT + 1
  {
    set k | 0 <= k < NSLOT && (k >= lo || (ind && k == NDIRECT)) && Ref(blk, ip, k) != 0 :: Ref(blk, ip, k)
  }

  /** itrunc on its way: the inode is already forgotten in ino0, its remaining blocks are pend. */
  ghost predicate Truncating(sb: Super, blk0: seq<Block>, blk: seq<Block>, ino0: seq<Inode>, pend: set<int>)
  {
    && Consistent(sb, blk, ino0, pend)
    && |blk| == |blk0| && (forall x :: sb.datastart <= x < sb.size ==> blk[x] == blk0[x])
    && (forall x :: 0 <= x < |blk| && x < sb.bmapstart ==> blk[x] == blk0[x])
    && Shaped(ino0) && SameRefs(blk0, ino0, blk, ino0)
  }

  ghost predicate GaveBack(sb: Super, blk0: seq<Block>, blk: seq<Block>, gone: set<int>)
  {
    forall x :: 0 <= x < sb.size ==> (Used(sb, blk, x) <==> Used(sb, blk0, x) && x !in gone)
  }

  lemma TruncStart(sb: Super, blk: seq<Block>, ino: seq<Inode>, i: int)
    requires Consistent(sb, blk, ino, {}) && 0 <= i < |ino|
    ensures Left(blk, ino[i], 0, true) == BlocksOf(blk, ino[i])
    ensures Truncating(sb, blk, blk, ino[i := Inode(0, NoBlocks)], Left(blk, ino[i], 0, true))
    ensures GaveBack(sb, blk, blk, BlocksOf(blk, ino[i]) - Left(blk, ino[i], 0, true))
  {
    hide Used, Ref;
    assert Left(blk, ino[i], 0, true) == BlocksOf(blk, ino[i]);
    DetachStep(sb, blk, ino, {}, i);
    assert {} + BlocksOf(blk, ino[i]) == BlocksOf(blk, ino[i]);
  }

  lemma DirectRef(blk: seq<Block>, ip: Inode, k: int)
    requires |ip.addrs| == NDIRECT + 1 && 0 <= k <= NDIRECT
    ensures Ref(blk, ip, k) == ip.addrs[k]
  {
  }

  lemma EntryRef(blk: seq<Block>, ip: Inode, e: int)
    requires |ip.addrs| == NDIRECT + 1 && 0 <= e < NINDIRECT
    requires 0 < ip.addrs[NDIRECT] < |blk| && |blk[ip.addrs[NDIRECT]]| == BSIZE
    ensures Ref(blk, ip, NDIRECT + 1 + e) == GetWord(blk[ip.addrs[NDIRECT]], e)
  {
  }

  /** No indirect block: once the direct slots are done, nothing is left. */
  lemma LeftIndirect(sb: Super, blk: seq<Block>, ino: seq<Inode>, i: int)
    requires Consistent(sb, blk, ino, {}) && 0 <= i < |ino|
    ensures ino[i].addrs[NDIRECT] == 0 ==> Left(blk, ino[i], NDIRECT, true) == {}
    ensures Left(blk, ino[i], NDIRECT, true) == Left(blk, ino[i], NDIRECT + 1, true)
    ensures forall lo :: Left(blk, ino[i], lo, true) <= BlocksOf(blk, ino[i])
  {
  }

  lemma LeftLast(blk: seq<Block>, ip: Inode)
    requires |ip.addrs| == NDIRECT + 1 && ip.addrs[NDIRECT] != 0
    ensures Left(blk, ip, NSLOT, true) == {ip.addrs[NDIRECT]}
  {
    hide GetWord;
    assert Ref(blk, ip, NDIRECT) == ip.addrs[NDIRECT];
  }

  /** bfree does not touch the indirect block it works from. */
  lemma IndirectData(sb: Super, blk0: seq<Block>, blk: seq<Block>, ino: seq<Inode>, ino0: seq<Inode>, pend: set<int>,
                     i: int)
    requires Consistent(sb, blk0, ino, {}) && 0 <= i < |ino| && ino[i].addrs[NDIRECT] != 0
    requires Truncating(sb, blk0, blk, ino0, pend)
    ensures 0 < ino[i].addrs[NDIRECT] < |blk| == |blk0| && |blk0[ino[i].addrs[NDIRECT]]| == BSIZE
    ensures blk[ino[i].addrs[NDIRECT]] == blk0[ino[i].addrs[NDIRECT]]
  {
    hide Used, Ref;
    IndirectMarked(sb, blk0, ino, {}, i);
  }

  lemma TruncDone(sb: Super, blk0: seq<Block>, blk: seq<Block>, ino: seq<Inode>, i: int)
    requires Consistent(sb, blk0, ino, {}) && 0 <= i < |ino|
    requires Truncating(sb, blk0, blk, ino[i := Inode(0, NoBlocks)], {})
    requires GaveBack(sb, blk0, blk, BlocksOf(blk0, ino[i]) - {})
    ensures Consistent(sb, blk, ino[i := Inode(0, NoBlocks)], {})
    ensures Geometry(sb, blk) && Geometry(sb, blk0) && |ino| <= sb.ninodes
    ensures DiskInodes(sb, blk, |ino|) == DiskInodes(sb, blk0, |ino|)
    ensures forall x :: 0 <= x < sb.size ==> (Used(sb, blk, x) <==> Used(sb, blk0, x) && x !in BlocksOf(blk0, ino[i]))
    ensures forall j :: 0 <= j < |ino| && j != i ==> Content(blk, ino[j]) == Content(blk0, ino[j])
  {
    hide Used, Ref, Content;
    SameInodes(sb, blk0, blk, |ino|);
    forall j | 0 <= j < |ino| && j != i ensures Content(blk, ino[j]) == Content(blk0, ino[j]) {
      assert ino[i := Inode(0, NoBlocks)][j] == ino[j];
      KeepsContent(blk0, ino[j], blk, ino[j]);
    }
  }

  lemma LeftNext(sb: Super, blk: seq<Block>, ino: seq<Inode>, i: int, k: int)
    requires Consistent(sb, blk, ino, {}) && 0 <= i < |ino| && 0 <= k < NSLOT && k != NDIRECT
    ensures var b := Ref(blk, ino[i], k);
      Left(blk, ino[i], k + 1, true) ==
        (if b == 0 then Left(blk, ino[i], k, true) else Left(blk, ino[i], k, true) - {b})
    ensures Ref(blk, ino[i], k) != 0 ==> Ref(blk, ino[i], k) in Left(blk, ino[i], k, true)
  {
  }

  /** What a finished write loop leaves once the size is brought up to date. */
  lemma WriteDone(sb: Super, s0: State, s: State, i: int, off: int, src: seq<byte>, t: Tally)
    requires SoFar(sb, s0, s, i, off, |src|, src, t)
    ensures 0 <= i < |s0.ino| == |s.ino| && 0 <= off <= s0.ino[i].size == s.ino[i].size
    ensures Consistent(sb, s0.blk, s0.ino, {}) && Consistent(sb, s.blk, Grown(s.ino, i, off + |src|), {})
    ensures Content(s.blk, Grown(s.ino, i, off + |src|)[i]) == Splice(Content(s0.blk, s0.ino[i]), off, src)
    ensures forall j :: 0 <= j < |s.ino| && j != i ==>
      s.ino[j] == s0.ino[j] && Content(s.blk, s.ino[j]) == Content(s0.blk, s0.ino[j])
    ensures off + |src| <= s.ino[i].size ==> s.ino == s0.ino
    ensures |s.logged - s0.logged| <= 2 * Span(off, |src|) + Extra(off) - 1
    ensures var logged := if off + |src| > s.ino[i].size then s.logged + {IBlock(sb, i)} else s.logged;
      && |logged - s0.logged| <= 2 * Span(off, |src|) + (if off % BSIZE == 0 then 3 else 2)
      && |logged| >= Span(off, |src|)
  {
    hide Used, Ref, ByteAt, Content, Splice, Keeps, Written;
    var size := if off + |src| > s.ino[i].size then off + |src| else s.ino[i].size;
    var ip := s.ino[i].(size := size);
    WrittenIgnoresSize(s0.blk, s0.ino[i], s.blk, s.ino[i], off, src, size);
    WrittenContent(s0.blk, s0.ino[i], s.blk, ip, off, src);
    GrowStep(sb, s.blk, s.ino, {}, i, size);
    assert Grown(s.ino, i, off + |src|) == s.ino[i := ip];
    forall j | 0 <= j < |s.ino| && j != i ensures Content(s.blk, s.ino[j]) == Content(s0.blk, s0.ino[j]) {
      KeepsContent(s0.blk, s0.ino[j], s.blk, s.ino[j]);
    }
    TallyBound(s0.logged, s0.ino[i], s.logged, s.ino[i], off, |src|, t, IBlock(sb, i));
    WrittenRefs(s0.blk, s0.ino[i], s.blk, s.ino[i], off, |src|, src);
    EachBlockLogged(sb, s, i, off, |src|);
    CardSubset(s.logged, s.logged + {IBlock(sb, i)});
  }

  /** Every block the write reached is in the log, and they are all different. */
  lemma EachBlockLogged(sb: Super, s: State, i: int, off: int, n: int)
    requires Consistent(sb, s.blk, s.ino, {}) && 0 <= i < |s.ino| && Shaped(s.ino)
    requires 0 <= off && 0 <= n && off + n <= MAXFILE * BSIZE
    requires forall x :: off <= x < off + n ==>
      Ref(s.blk, s.ino[i], DataSlot(x / BSIZE)) != 0 && Ref(s.blk, s.ino[i], DataSlot(x / BSIZE)) in s.logged
    ensures |s.logged| >= Span(off, n)
  {
    hide Ref, Used, Consistent;
    if n > 0 {
      var first, last := off / BSIZE, (off + n - 1) / BSIZE;
      forall bn | first <= bn <= last
        ensures Ref(s.blk, s.ino[i], DataSlot(bn)) != 0 && Ref(s.blk, s.ino[i], DataSlot(bn)) in s.logged
      {
        var x := if bn == first then off else bn * BSIZE;
        assert x / BSIZE == bn && off <= x < off + n;
      }
      DistinctBlocks(sb, s, i, first, last);
    }
  }

  lemma {:induction false} DistinctBlocks(sb: Super, s: State, i: int, first: int, last: int)
    requires Consistent(sb, s.blk, s.ino, {}) && 0 <= i < |s.ino| && Shaped(s.ino)
    requires 0 <= first <= last + 1 && last < MAXFILE
    requires forall bn :: first <= bn <= last ==>
      Ref(s.blk, s.ino[i], DataSlot(bn)) != 0 && Ref(s.blk, s.ino[i], DataSlot(bn)) in s.logged
    ensures |s.logged| >= last - first + 1
    decreases last - first
  {
    hide Ref, Used;
    if first <= last {
      var b := Ref(s.blk, s.ino[i], DataSlot(last));
      var s' := s.(logged := s.logged - {b});
      assert forall bn :: first <= bn < last ==> Ref(s.blk, s.ino[i], DataSlot(bn)) != b;
      DistinctBlocks(sb, s', i, first, last - 1);
    }
  }

  function Grown(ino: seq<Inode>, i: int, end: int): seq<Inode>
    requires 0 <= i < |ino|
  {
    if end > ino[i].size then ino[i := ino[i].(size := end)] else ino
  }

  lemma WrittenIgnoresSize(blk0: seq<Block>, ip0: Inode, blk: seq<Block>, ip: Inode, off: int, src: seq<byte>,
                           size: int)
    requires |ip0.addrs| == NDIRECT + 1 && |ip.addrs| == NDIRECT + 1
    requires 0 <= off && off + |src| <= MAXFILE * BSIZE
    requires Written(blk0, ip0, blk, ip, off, |src|, src)
    ensures Written(blk0, ip0, blk, ip.(size := size), off, |src|, src)
  {
  }

  lemma SpliceNone(s: seq<byte>, off: int)
    ensures Splice(s, off, []) == s
  {
  }

  lemma SpliceLength(s: seq<byte>, off: int, a: seq<byte>)
    ensures 0 <= off <= |s| ==> |Splice(s, off, a)| >= off + |a|
  {
  }

  /** Two writes end to end are one write. */
  lemma SpliceTwice(s: seq<byte>, off: int, a: seq<byte>, b: seq<byte>)
    requires 0 <= off <= |s|
    ensures off + |a| <= |Splice(s, off, a)|
    ensures Splice(Splice(s, off, a), off + |a|, b) == Splice(s, off, a + b)
  {
  }

  /** A chunk never logs more than LOGSIZE blocks, however it is aligned. */
  lemma ChunkFits(off: int, n: int, cap: int)
    requires 6 <= cap && 0 <= off && 0 <= n <= ChunkMax(cap)
    ensures 2 * Span(off, n) + (if off % BSIZE == 0 then 3 else 2) <= cap
  {
  }

  /** A full chunk logs more data blocks than the MAXOPBLOCKS its begin_op set aside. */
  lemma ChunkOverruns(off: int)
    requires 0 <= off
    ensures Span(off, ChunkMax(30)) > 10
  {
  }

  lemma SpanPositive(off: int, n: int)
    requires 0 <= off
    ensures Span(off, n) >= 0
  {
  }

  /** The plain facts of consistency. */
  lemma Sizes(sb: Super, blk: seq<Block>, ino: seq<Inode>)
    requires Consistent(sb, blk, ino, {})
    ensures Geometry(sb, blk) && Shaped(ino) && |ino| <= sb.ninodes
    ensures forall j :: 0 <= j < |ino| ==> Proper(ino[j])
  {
  }

  lemma RefInside(sb: Super, blk: seq<Block>, ino: seq<Inode>, i: int, k: int)
    requires Consistent(sb, blk, ino, {}) && 0 <= i < |ino| && 0 <= k < NSLOT
    ensures Shaped(ino) && var b := Ref(blk, ino[i], k);
      b != 0 ==> 0 < b < |blk| && |blk[b]| == BSIZE
  {
  }

  /** Data, bitmap, indirect and inode blocks together. */
  lemma TallyBound(logged0: set<int>, ip0: Inode, logged: set<int>, ip: Inode, off: int, n: int, t: Tally, ib: int)
    requires Counted(logged0, ip0, logged, ip, off, n, t) && 0 <= off && 0 <= n
    requires n == 0 ==> ip == ip0
    ensures |logged - logged0| <= 2 * Span(off, n) + if off % BSIZE == 0 then 3 else 2
    ensures |logged - logged0| <= 2 * Span(off, n) + Extra(off) - 1
    ensures n > 0 ==> |(logged + {ib}) - logged0| <= 2 * Span(off, n) + if off % BSIZE == 0 then 3 else 2
  {
    var some := t.data + t.bitmap + Indirect(ip);
    CardUnion(t.data, t.bitmap);
    CardUnion(t.data + t.bitmap, Indirect(ip));
    CardSubset(logged - logged0, some);
    CardUnion(some, {ib});
    CardSubset((logged + {ib}) - logged0, some + {ib});
    SpanPositive(off, n);
  }

  lemma OthersStill(blk0: seq<Block>, blk1: seq<Block>, blk2: seq<Block>, ino1: seq<Inode>, ino2: seq<Inode>, i: int)
    requires Shaped(ino1) && Shaped(ino2) && |ino1| == |ino2| && |blk1| == |blk0| && |blk2| == |blk0|
    requires forall j :: 0 <= j < |ino1| && j != i ==> Keeps(blk0, ino1[j], blk1, ino1[j])
    requires forall j :: 0 <= j < |ino2| && j != i ==> ino2[j] == ino1[j] && Keeps(blk1, ino2[j], blk2, ino2[j])
    ensures forall j :: 0 <= j < |ino2| && j != i ==> Keeps(blk0, ino2[j], blk2, ino2[j])
  {
  }

  /** Data blocks and bitmap blocks a writei has logged, and how many of its turns allocated. */
  datatype Tally = Tally(data: set<int>, bitmap: set<int>, allocs: int)

  ghost predicate Counted(logged0: set<int>, ip0: Inode, logged: set<int>, ip: Inode, off: int, tot: int, t: Tally)
  {
    && |ip0.addrs| == NDIRECT + 1 && |ip.addrs| == NDIRECT + 1
    && (ip0.addrs[NDIRECT] != 0 ==> ip.addrs[NDIRECT] == ip0.addrs[NDIRECT])
    && logged <= logged0 + t.data + t.bitmap + Indirect(ip)
    && |t.data| <= Span(off, tot) && |t.bitmap| <= t.allocs + NewIndirect(ip0, ip)
    && t.allocs <= Span(off, tot) - if off % BSIZE != 0 && tot > 0 then 1 else 0
  }

  lemma CountedStep(logged0: set<int>, ip0: Inode, logged1: set<int>, ip1: Inode, logged2: set<int>, ip2: Inode,
                    off: int, tot: int, m: int, t: Tally, addr: int, bm: set<int>) returns (t': Tally)
    requires Counted(logged0, ip0, logged1, ip1, off, tot, t) && |ip2.addrs| == NDIRECT + 1
    requires 0 <= off && 0 <= tot && 0 < m <= BSIZE - (off + tot) % BSIZE
    requires tot == 0 || (off + tot) % BSIZE == 0
    requires logged2 <= logged1 + {addr} + Indirect(ip2) + bm
    requires |bm| <= 1 + NewIndirect(ip1, ip2)
    requires ip1.addrs[NDIRECT] != 0 ==> ip2.addrs[NDIRECT] == ip1.addrs[NDIRECT]
    requires bm == {} || tot > 0 || off % BSIZE == 0
    requires bm == {} ==> ip1 == ip2
    ensures Counted(logged0, ip0, logged2, ip2, off, tot + m, t')
  {
    SpanStep(off, tot, m);
    t' := Tally(t.data + {addr}, t.bitmap + bm, t.allocs + if bm == {} then 0 else 1);
    assert |t'.data| <= |t.data| + 1;
    CardUnion(t.bitmap, bm);
  }

  lemma CardUnion(a: set<int>, b: set<int>)
    ensures |a + b| <= |a| + |b|
  {
  }

  lemma {:induction false} CardSubset(a: set<int>, b: set<int>)
    requires a <= b
    ensures |a| <= |b|
  {
    assert b == a + (b - a);
  }
}
