/**
The file system on top of the log: filewrite with a crash after any block write.  Each chunk
is one transaction: its log_write calls go to the log in order, and end_op commits them.
*/
module FsCrash {
  import opened Blocks
  import opened Seqs
  import opened FsLayout
  import opened FsProof
  import opened FsInodes
  import opened FsOps
  import L = LogDevice
  import P = LogProtocol

  /** The blocks of a disk of count blocks; those of the log area read as zeros. */
  ghost function AllBlocks(home: map<int, Block>, count: nat): (blk: seq<Block>)
    ensures |blk| == count
  {
    seq(count, b requires 0 <= b < count => if b in home then home[b] else ZeroBlock)
  }

  /** The log area lies before the inode blocks and holds LOGSIZE blocks besides its header. */
  ghost predicate Fitted(sb: Super, y: L.Layout)
  {
    y.count == sb.size && y.start + y.size <= sb.inodestart && y.size > L.LOGSIZE && sb.size <= UINT_RANGE
  }

  /** A disk whose home blocks are a consistent file system of n inodes with these contents. */
  ghost predicate Shows(sb: Super, n: nat, home: map<int, Block>, contents: seq<seq<byte>>)
  {
    && sb.size >= 0 && |contents| == n
    && var blk := AllBlocks(home, sb.size);
       && Geometry(sb, blk) && n <= sb.ninodes && Consistent(sb, blk, DiskInodes(sb, blk, n), {})
       && forall j :: 0 <= j < n ==> Content(blk, DiskInodes(sb, blk, n)[j]) == contents[j]
  }

  /** Every file's contents. */
  ghost function Contents(blk: seq<Block>, ino: seq<Inode>): (r: seq<seq<byte>>)
    ensures |r| == |ino|
  {
    seq(|ino|, j requires 0 <= j < |ino| => Content(blk, ino[j]))
  }

  /** Writing lh's blocks from the cache over the home blocks gives the new image. */
  lemma OverlayBlocks(sb: Super, y: L.Layout, home: map<int, Block>, lh: seq<int>, cache: map<int, Block>,
                      blk0: seq<Block>, blk: seq<Block>, calls: seq<int>, cap: int)
    requires Fitted(sb, y) && |blk0| == sb.size && home.Keys == (set b | 0 <= b < y.count && L.Home(y, b))
    requires blk0 == AllBlocks(home, |blk0|) && Chunked(sb, blk0, blk, calls, cap)
    requires Mirrored(lh, calls, cache, blk)
    ensures AllBlocks(L.Overlay(home, lh, cache), |blk0|) == blk
  {
    var got := AllBlocks(L.Overlay(home, lh, cache), |blk0|);
    forall b | 0 <= b < |blk0| ensures got[b] == blk[b] {
      assert b in lh <==> b in Elems(lh);
      assert b in calls <==> b in Elems(calls);
      if b in calls {
        var k :| 0 <= k < |calls| && calls[k] == b;
        assert L.Home(y, b);
      } else {
        assert blk[b] == blk0[b];
      }
    }
  }

  /** The log lists exactly the blocks of the calls, and the cache holds their new contents. */
  ghost predicate Mirrored(lh: seq<int>, calls: seq<int>, cache: map<int, Block>, blk: seq<Block>)
  {
    && Elems(lh) == Elems(calls)
    && forall b :: b in calls ==> b in cache && 0 <= b < |blk| && cache[b] == blk[b]
  }

  lemma MirrorNone(lh: seq<int>, cache: map<int, Block>, blk: seq<Block>)
    requires lh == []
    ensures Mirrored(lh, [], cache, blk)
  {
  }

  /** One log_write; before it the list is as long as the calls have blocks. */
  lemma MirrorStep(lh: seq<int>, calls: seq<int>, k: int, cache: map<int, Block>, blk: seq<Block>)
    requires 0 <= k < |calls| && Mirrored(lh, calls[..k], cache, blk) && Distinct(lh) && 0 <= calls[k] < |blk|
    ensures |lh| == |Elems(calls[..k])|
    ensures var b := calls[k];
      Mirrored(if b in lh then lh else lh + [b], calls[..k + 1], cache[b := blk[b]], blk)
  {
    CardDistinct(lh);
    var b := calls[k];
    var lh' := if b in lh then lh else lh + [b];
    var more := calls[..k] + [b];
    assert calls[..k + 1] == more;
    forall x ensures x in Elems(lh') <==> x in Elems(more) {
      assert x in Elems(lh) <==> x in Elems(calls[..k]);
    }
    assert Elems(lh') == Elems(more);
    assert Mirrored(lh', more, cache[b := blk[b]], blk);
  }

  lemma {:induction false} CardDistinct(s: seq<int>)
    requires Distinct(s)
    ensures |Elems(s)| == |s|
  {
    if s == [] {
      assert Elems(s) == {};
    } else {
      var n := |s| - 1;
      CardDistinct(s[..n]);
      assert Elems(s) == Elems(s[..n]) + {s[n]};
    }
  }

  /** Every disk of the trace from t on recovers to one of two states of the home blocks. */
  ghost predicate Either(trace: seq<P.Disk>, t: nat, home0: map<int, Block>, home1: map<int, Block>)
  {
    forall k :: t <= k < |trace| ==>
      P.LogFits(trace[k]) && (P.Recovered(trace[k]) == home0 || P.Recovered(trace[k]) == home1)
  }

  lemma EitherNone(trace: seq<P.Disk>, home0: map<int, Block>, home1: map<int, Block>)
    ensures Either(trace, |trace|, home0, home1)
  {
  }

  lemma EitherFrom(trace: seq<P.Disk>, t: nat, n: nat, home0: map<int, Block>, home1: map<int, Block>)
    requires t + n < |trace|
    requires L.AllRecoverTo(trace[t..t + n], home0) && L.AllRecoverTo(trace[t + n..], home1)
    ensures Either(trace, t, home0, home1)
  {
    hide P.Recovered;
    forall k | t <= k < |trace|
      ensures P.LogFits(trace[k]) && (P.Recovered(trace[k]) == home0 || P.Recovered(trace[k]) == home1)
    {
      if k < t + n {
        assert trace[k] == trace[t..t + n][k - t];
      } else {
        assert trace[k] == trace[t + n..][k - t - n];
      }
    }
  }

  lemma OverlayNone(home: map<int, Block>, lh: seq<int>, cache: map<int, Block>)
    requires lh == []
    ensures L.Overlay(home, lh, cache) == home
  {
  }

  lemma HomeKeys(y: L.Layout, d: seq<Block>)
    requires L.Fits(y, d)
    ensures L.Abs(y, d).home.Keys == (set b | 0 <= b < y.count && L.Home(y, b))
  {
  }

  /** m bytes out of len, in chunks of max, are a whole number of chunks. */
  ghost predicate Whole(m: int, len: int, max: int)
  {
    0 <= m && (m == len || Multiple(m, max))
  }

  ghost predicate Multiple(m: int, max: int)
  {
    exists c: nat :: m == c * max
  }

  /** Disk d recovers to a consistent file system in which the first m bytes are written and nothing else changed. */
  ghost predicate Spliced(sb: Super, d: P.Disk, was: seq<seq<byte>>, i: int, off: int, addr: seq<byte>, m: int)
  {
    && P.LogFits(d) && 0 <= i < |was| && 0 <= m <= |addr|
    && Shows(sb, |was|, P.Recovered(d), was[i := Splice(was[i], off, addr[..m])])
  }

  /** Some whole number of chunks is written, on every disk of the trace from t on. */
  ghost predicate AllSpliced(sb: Super, trace: seq<P.Disk>, t: nat, was: seq<seq<byte>>, i: int, off: int,
                             addr: seq<byte>, len: int, max: int)
  {
    forall k :: t <= k < |trace| ==> exists m :: Whole(m, len, max) && Spliced(sb, trace[k], was, i, off, addr, m)
  }

  /** One more chunk: the disks written meanwhile show the chunks before it, or it as well. */
  lemma MoreSpliced(sb: Super, trace: seq<P.Disk>, t: nat, u: nat, home0: map<int, Block>, home1: map<int, Block>,
                    was: seq<seq<byte>>, i: int, off: int, addr: seq<byte>, len: int, max: int, m0: int, m1: int)
    requires t <= u <= |trace| && 0 <= i < |was| && Whole(m0, len, max) && Whole(m1, len, max)
    requires m0 <= |addr| && m1 <= |addr|
    requires AllSpliced(sb, trace[..u], t, was, i, off, addr, len, max) && Either(trace, u, home0, home1)
    requires Shows(sb, |was|, home0, was[i := Splice(was[i], off, addr[..m0])])
    requires Shows(sb, |was|, home1, was[i := Splice(was[i], off, addr[..m1])])
    ensures AllSpliced(sb, trace, t, was, i, off, addr, len, max)
  {
    hide Shows, Splice, P.Recovered, Multiple;
    forall k | t <= k < |trace|
      ensures exists m :: Whole(m, len, max) && Spliced(sb, trace[k], was, i, off, addr, m)
    {
      if k < u {
        assert trace[..u][k] == trace[k];
      } else {
        var m := if P.Recovered(trace[k]) == home0 then m0 else m1;
        assert Spliced(sb, trace[k], was, i, off, addr, m);
      }
    }
  }

  /** A turn of filewrite's loop, seen from the files' contents and the disks written. */
  lemma TurnDone(sb: Super, trace0: seq<P.Disk>, trace: seq<P.Disk>, t: nat, home0: map<int, Block>,
                 home1: map<int, Block>, was: seq<seq<byte>>, now0: seq<seq<byte>>, now1: seq<seq<byte>>, i: int,
                 off: int, addr: seq<byte>, len: int, max: int, done: int, n1: int, r1: int)
    requires 0 <= i < |was| == |now0| && max > 0 && 0 <= off && 0 <= done < len <= |addr| && Multiple(done, max)
    requires n1 == if len - done > max then max else len - done
    requires now0 == was[i := Splice(was[i], off, addr[..done])]
    requires now1 == now0[i := if r1 == -1 then now0[i] else Splice(now0[i], off + done, addr[done..done + n1])]
    requires r1 >= -1 && (r1 >= 0 ==> off + done <= |now0[i]|) && (done > 0 ==> off <= |was[i]|)
    requires Shows(sb, |was|, home0, now0) && Shows(sb, |was|, home1, now1)
    requires t <= |trace0| && trace0 <= trace && AllSpliced(sb, trace0, t, was, i, off, addr, len, max)
    requires Either(trace, |trace0|, home0, home1)
    ensures AllSpliced(sb, trace, t, was, i, off, addr, len, max)
    ensures now1 == was[i := Splice(was[i], off, addr[..if r1 < 0 then done else done + n1])]
  {
    hide Shows, Splice, AllSpliced, Either, Multiple;
    WholeChunks(done, len, max);
    var m1 := if r1 < 0 then done else done + n1;
    if done == 0 {
      SpliceNone(was[i], off);
    }
    if r1 >= 0 {
      SpliceTwice(was[i], off, addr[..done], addr[done..done + n1]);
      assert addr[..done] + addr[done..done + n1] == addr[..done + n1];
    }
    assert now1 == was[i := Splice(was[i], off, addr[..m1])];
    assert trace[..|trace0|] == trace0;
    MoreSpliced(sb, trace, t, |trace0|, home0, home1, was, i, off, addr, len, max, done, m1);
  }

  lemma NoneSpliced(sb: Super, trace: seq<P.Disk>, was: seq<seq<byte>>, i: int, off: int, addr: seq<byte>, len: int,
                    max: int)
    ensures AllSpliced(sb, trace, |trace|, was, i, off, addr, len, max)
  {
  }

  lemma WholeChunks(done: int, len: int, max: int)
    requires max >= 0 && 0 <= done && Multiple(done, max)
    ensures Whole(done, len, max) && Multiple(done + max, max) && Whole(done + max, len, max)
  {
    var c: nat :| done == c * max;
    assert done + max == (c + 1) * max;
  }

  lemma NoChunks(max: int)
    ensures Multiple(0, max)
  {
    assert 0 == 0 * max;
  }

  class System {
    const fs: Fs
    const log: L.Log

    ghost predicate Valid()
      reads this, fs, log, log.disk, log.block
    {
      && Consistent(fs.sb, fs.blk, fs.ino, {}) && fs.Disk() == fs.ino
      && Quiet() && Fitted(fs.sb, log.layout)
      && fs.blk == AllBlocks(log.Now().home, |fs.blk|)
    }

    ghost function Home(): map<int, Block>
      requires Valid()
      reads this, fs, log, log.disk, log.block
    {
      log.Now().home
    }

    /** No transaction is under way. */
    ghost predicate Quiet()
      reads this, log, log.disk, log.block
    {
      log.Valid() && log.n == 0 && log.outstanding == 0 && !log.committing && log.Now().head == []
    }

    /** A file system and the log it lies under, both as a boot leaves them. */
    constructor (f: Fs, l: L.Log)
      requires Consistent(f.sb, f.blk, f.ino, {}) && f.Disk() == f.ino && Fitted(f.sb, l.layout)
      requires l.Valid() && l.n == 0 && l.outstanding == 0 && !l.committing && l.Now().head == []
      requires f.blk == AllBlocks(l.Now().home, |f.blk|)
      ensures Valid() && fs == f && log == l
    {
      fs, log := f, l;
    }

    /** The transaction's log_write calls, in order.  None of them panics. */
    method LogCalls(ghost blk0: seq<Block>)
      requires log.Valid() && log.n == 0 && log.outstanding == 1 && Fitted(fs.sb, log.layout)
      requires |fs.blk| == fs.sb.size && Chunked(fs.sb, blk0, fs.blk, fs.calls, L.LOGSIZE)
      requires forall b :: 0 <= b < |fs.blk| ==> |fs.blk[b]| == BSIZE
      modifies log`n, log`cache, log.block
      ensures log.Valid() && log.disk[..] == old(log.disk[..])
      ensures Mirrored(log.block[..log.n], fs.calls, log.cache, fs.blk)
    {
      hide Mirrored, Elems;
      MirrorNone(log.block[..0], log.cache, fs.blk);
      var k := 0;
      assert fs.calls[..0] == [] && log.block[..0] == [];
      while k < |fs.calls|
        invariant 0 <= k <= |fs.calls| && log.Valid() && log.disk[..] == old(log.disk[..])
        invariant Mirrored(log.block[..log.n], fs.calls[..k], log.cache, fs.blk)
      {
        var b := fs.calls[k];
        MirrorStep(log.block[..log.n], fs.calls, k, log.cache, fs.blk);
        assert L.Home(log.layout, b);
        log.cache := log.cache[b := fs.blk[b]];
        var panic := log.LogWrite(b);
        k := k + 1;
      }
      assert fs.calls[..k] == fs.calls;
    }

    /** One transaction of filewrite.  A crash after any of its block writes leaves, once recovered, the home
        blocks before it or after it. */
    method Chunk(i: int, off: int, data: seq<byte>) returns (r: int, panic: bool)
      requires Valid() && 0 <= i < |fs.ino|
      requires 0 <= off < UINT_RANGE && |data| <= ChunkMax(L.LOGSIZE) && |data| < 0x8000_0000
      modifies fs, log, log.disk, log.block
      ensures panic ==> log.trace == old(log.trace)
      ensures !panic ==> Valid() && |fs.ino| == old(|fs.ino|) && old(log.trace) <= log.trace
      ensures !panic ==> r == if off > old(fs.ino[i].size) || off + |data| > MAXFILE * BSIZE then -1 else |data|
      ensures !panic && r == -1 ==> fs.ino == old(fs.ino)
      ensures !panic && r != -1 ==> off + |data| <= fs.ino[i].size
      ensures !panic ==> Contents(fs.blk, fs.ino) == old(Contents(fs.blk, fs.ino))[i :=
        if r == -1 then old(Content(fs.blk, fs.ino[i])) else Splice(old(Content(fs.blk, fs.ino[i])), off, data)]
      ensures !panic ==> Either(log.trace, |old(log.trace)|, old(Home()), Home())
    {
      hide Consistent, Content, Splice, ChunkMax, Chunked, AllBlocks, DiskInodes, Either, L.AllRecoverTo, P.Recovered,
           L.Overlay, L.Loggable, L.DecodeHead;
      ghost var blk0, home0, t0 := fs.blk, log.Now().home, |log.trace|;
      Sizes(fs.sb, fs.blk, fs.ino);
      HomeKeys(log.layout, log.disk[..]);
      EitherNone(log.trace, home0, home0);
      var proceed := log.BeginOp();
      ghost var count;
      r, panic, count := fs.FileChunk(i, off, data, L.LOGSIZE);
      if panic {
        return;
      }
      Sizes(fs.sb, fs.blk, fs.ino);
      LogCalls(blk0);
      ghost var lh, cache := log.block[..log.n], log.cache;
      var _, _ := log.EndOp();
      OverlayBlocks(fs.sb, log.layout, home0, lh, cache, blk0, fs.blk, fs.calls, L.LOGSIZE);
      if |lh| == 0 {
        OverlayNone(home0, lh, cache);
      } else {
        EitherFrom(log.trace, t0, |lh|, home0, log.Now().home);
      }
    }

    /** Recovered now, the disk shows what the files hold. */
    lemma ShowsNow()
      requires Valid()
      ensures Shows(fs.sb, |fs.ino|, Home(), Contents(fs.blk, fs.ino))
    {
      Sizes(fs.sb, fs.blk, fs.ino);
    }

    lemma SizeAt(i: int)
      requires Valid() && 0 <= i < |fs.ino|
      ensures |Content(fs.blk, fs.ino[i])| == fs.ino[i].size
      ensures Contents(fs.blk, fs.ino)[i] == Content(fs.blk, fs.ino[i])
    {
      hide Content;
      Sizes(fs.sb, fs.blk, fs.ino);
    }

    /** filewrite has written done bytes of addr from off on, since the files held was and the trace had t disks. */
    ghost predicate At(was: seq<seq<byte>>, t: nat, i: int, off: int, addr: seq<byte>, len: int, done: int)
      reads this, fs, log, log.disk, log.block
    {
      && Valid() && |fs.ino| == |was| && 0 <= i < |was| && 0 <= done <= |addr| && t <= |log.trace|
      && Contents(fs.blk, fs.ino) == was[i := Splice(was[i], off, addr[..done])]
      && AllSpliced(fs.sb, log.trace, t, was, i, off, addr, len, ChunkMax(L.LOGSIZE))
    }

    /** One turn of filewrite's loop. */
    method Turn(i: int, off: int, addr: seq<byte>, n: int, done: int, n1: int, ghost was: seq<seq<byte>>, ghost t: nat)
      returns (r1: int, panic: bool)
      requires At(was, t, i, off, addr, n, done) && Multiple(done, ChunkMax(L.LOGSIZE))
      requires 0 <= done < n <= |addr| && n < 0x8000_0000
      requires n1 == if n - done > ChunkMax(L.LOGSIZE) then ChunkMax(L.LOGSIZE) else n - done
      requires 0 <= off && off + done < UINT_RANGE
      requires done > 0 ==> off <= |was[i]|
      modifies fs, log, log.disk, log.block
      ensures old(log.trace) <= log.trace && AllSpliced(fs.sb, log.trace, t, was, i, off, addr, n, ChunkMax(L.LOGSIZE))
      ensures !panic ==> At(was, t, i, off, addr, n, if r1 < 0 then done else done + n1)
      ensures !panic ==>
        r1 == if off + done > old(fs.ino[i].size) || off + done + n1 > MAXFILE * BSIZE then -1 else n1
      ensures !panic && r1 == -1 ==> fs.ino == old(fs.ino)
      ensures !panic && r1 != -1 ==> off + done + n1 <= fs.ino[i].size
    {
      hide Consistent, Content, Splice, ChunkMax, Shows, AllSpliced, Either, Contents, Multiple, Valid, Fitted;
      ChunkPositive(L.LOGSIZE);
      ghost var home0, trace0, now0 := Home(), log.trace, Contents(fs.blk, fs.ino);
      ShowsNow();
      SizeAt(i);
      r1, panic := Chunk(i, off + done, addr[done..done + n1]);
      if panic {
        return;
      }
      ShowsNow();
      TurnDone(fs.sb, trace0, log.trace, t, home0, Home(), was, now0, Contents(fs.blk, fs.ino), i, off, addr, n,
               ChunkMax(L.LOGSIZE), done, n1, r1);
    }

    /**
    filewrite, chunk by chunk through the log.  A crash after any block write leaves, once recovered,
    a consistent file system in which a whole number of chunks is written and no other file changed.
    */
    method Filewrite(i: int, off0: int, addr: seq<byte>, n: int) returns (r: int, off: int, panic: bool)
      requires Valid() && 0 <= i < |fs.ino|
      requires 0 <= off0 < UINT_RANGE && n <= |addr| && n < 0x8000_0000
      modifies fs, log, log.disk, log.block
      ensures old(log.trace) <= log.trace
      ensures AllSpliced(fs.sb, log.trace, |old(log.trace)|, old(Contents(fs.blk, fs.ino)), i, off0, addr, n,
                         ChunkMax(L.LOGSIZE))
      ensures !panic ==> 0 <= off - off0 <= |addr| && r == if n == off - off0 then n else -1
      ensures !panic ==> off == off0 + WrittenBytes(old(fs.ino[i].size), off0, n, L.LOGSIZE)
      ensures !panic ==> At(old(Contents(fs.blk, fs.ino)), |old(log.trace)|, i, off0, addr, n, off - off0)
    {
      hide Consistent, Content, Splice, ChunkMax, Fitting, WrittenBytes, AllSpliced, Contents, Multiple, Valid;
      ghost var was, size, t0, room := Contents(fs.blk, fs.ino), fs.ino[i].size, |log.trace|, MAXFILE * BSIZE - off0;
      var max := ChunkMax(L.LOGSIZE);
      ChunkPositive(L.LOGSIZE);
      SizeAt(i);
      SpliceNone(was[i], off0);
      NoneSpliced(fs.sb, log.trace, was, i, off0, addr, n, max);
      NoChunks(max);
      var done := 0;
      off, panic := off0, false;
      ghost var stopped := false;
      assert At(was, t0, i, off0, addr, n, done);
      while done < n
        invariant 0 <= done && (done <= n || done == 0) && !panic && off == off0 + done && !stopped
        invariant At(was, t0, i, off0, addr, n, done) && old(log.trace) <= log.trace
        invariant done < n ==> Multiple(done, max)
        invariant done == 0 ==> fs.ino[i].size == size
        invariant done > 0 ==> off0 <= size && off <= fs.ino[i].size && off <= MAXFILE * BSIZE
        invariant done == n || Fitting(room, max) == done + Fitting(room - done, max)
        decreases n - done
      {
        hide At;
        var n1 := if n - done > max then max else n - done;
        WholeChunks(done, n, max);
        var r1: int;
        r1, panic := Turn(i, off0, addr, n, done, n1, was, t0);
        if panic {
          return 0, off, true;
        }
        if r1 < 0 {
          stopped := true;
          break;
        }
        FittingNext(room - done, max);
        off := off + r1;
        done := done + r1;
      }
      r := if done == n then n else -1;
      AllOrChunks(size, off0, n, L.LOGSIZE, done, stopped);
    }
  }
}
