/**
log.c over a disk of BSIZE-byte blocks: the loops that copy blocks and the header
words they write.  A ghost trace records the disk after every block write, so each
method can say what a crash at any point inside it would leave.
*/
module LogDevice {
  import opened Blocks
  import P = LogProtocol
  import LogProof
  import opened Seqs

  const MAXOPBLOCKS: nat := 10
  const LOGSIZE: nat := 30

  // ---------------------------------------------------------------- the header block

  /** read_head: n, then that many block numbers. */
  function DecodeHead(b: Block): (lh: seq<int>)
    requires |b| == BSIZE
  {
    var n := GetWord(b, 0);
    seq(if n <= 127 then n else 127, i requires 0 <= i < 127 => GetWord(b, i + 1))
  }

  /** b with the first |lh| block numbers stored, n still to come. */
  function StoreNumbers(b: Block, lh: seq<int>): (b': Block)
    requires |b| == BSIZE && |lh| <= 127
    requires forall i :: 0 <= i < |lh| ==> 0 <= lh[i] < UINT_RANGE
    ensures |b'| == BSIZE
  {
    if lh == [] then b
    else SetWord(StoreNumbers(b, lh[..|lh| - 1]), |lh|, lh[|lh| - 1])
  }

  lemma {:induction false} StoreNumbersGet(b: Block, lh: seq<int>, j: nat)
    requires |b| == BSIZE && |lh| <= 127 && j <= 127
    requires forall i :: 0 <= i < |lh| ==> 0 <= lh[i] < UINT_RANGE
    ensures GetWord(StoreNumbers(b, lh), j) == if 1 <= j <= |lh| then lh[j - 1] else GetWord(b, j)
  {
    if lh != [] {
      StoreNumbersGet(b, lh[..|lh| - 1], j);
      SetWordGet(StoreNumbers(b, lh[..|lh| - 1]), |lh|, lh[|lh| - 1], j);
    }
  }

  /** What write_head stores is what read_head reads, whatever the block held before. */
  lemma HeadRoundTrip(b: Block, lh: seq<int>)
    requires |b| == BSIZE && |lh| <= 127
    requires forall i :: 0 <= i < |lh| ==> 0 <= lh[i] < UINT_RANGE
    ensures DecodeHead(StoreNumbers(SetWord(b, 0, |lh|), lh)) == lh
  {
    hide GetWord, SetWord, StoreNumbers;
    var b0 := SetWord(b, 0, |lh|);
    var b' := StoreNumbers(b0, lh);
    assert GetWord(b', 0) == |lh| by {
      StoreNumbersGet(b0, lh, 0);
      SetWordGet(b, 0, |lh|, 0);
    }
    forall i | 0 <= i < |lh| ensures DecodeHead(b')[i] == lh[i] {
      StoreNumbersGet(b0, lh, i + 1);
    }
  }

  /** b' is b with n = |lh| in its first word, the numbers lh in the next ones, and all other words as in b. */
  ghost predicate HeadWords(b: Block, b': Block, lh: seq<int>)
  {
    && |b| == |b'| == 512 && |lh| <= 127
    && GetWord(b', 0) == |lh|
    && (forall i :: 0 <= i < |lh| ==> GetWord(b', i + 1) == lh[i])
    && (forall j :: |lh| < j < 128 ==> GetWord(b', j) == GetWord(b, j))
  }

  lemma HeadStored(b: Block, lh: seq<int>)
    requires |b| == BSIZE && |lh| <= 127
    requires forall i :: 0 <= i < |lh| ==> 0 <= lh[i] < UINT_RANGE
    ensures HeadWords(b, StoreNumbers(SetWord(b, 0, |lh|), lh), lh)
  {
    hide GetWord, SetWord, StoreNumbers;
    var b0 := SetWord(b, 0, |lh|);
    forall j | 0 <= j <= 127
      ensures GetWord(StoreNumbers(b0, lh), j)
        == if j == 0 then |lh| else if j <= |lh| then lh[j - 1] else GetWord(b, j)
    {
      StoreNumbersGet(b0, lh, j);
      SetWordGet(b, 0, |lh|, j);
    }
  }

  // ---------------------------------------------------------------- the disk

  /** Where the log area lies on a disk of count blocks. */
  datatype Layout = Layout(start: nat, size: nat, count: nat)

  ghost predicate Fits(y: Layout, d: seq<Block>)
  {
    && 1 <= y.size && y.start + y.size <= y.count == |d|
    && forall i :: 0 <= i < |d| ==> |d[i]| == BSIZE
  }

  ghost predicate Home(y: Layout, b: int)
  {
    0 <= b < y.count && !(y.start <= b < y.start + y.size)
  }

  /** The disk as the log protocol sees it. */
  ghost function Abs(y: Layout, d: seq<Block>): P.Disk
    requires Fits(y, d)
  {
    P.Disk(
      DecodeHead(d[y.start]),
      d[y.start + 1..y.start + y.size],
      map b | 0 <= b < y.count && Home(y, b) :: d[b],
      y.start + y.size)
  }

  lemma LogAt(y: Layout, d: seq<Block>, t: nat)
    requires Fits(y, d) && t + 1 < y.size
    ensures Abs(y, d).log[t] == d[y.start + t + 1]
  {
  }

  lemma AbsLogWrite(y: Layout, d: seq<Block>, t: nat, v: Block)
    requires Fits(y, d) && t + 1 < y.size && |v| == BSIZE
    ensures Fits(y, d[y.start + t + 1 := v])
    ensures Abs(y, d[y.start + t + 1 := v]) == Abs(y, d).(log := Abs(y, d).log[t := v])
  {
    var d' := d[y.start + t + 1 := v];
    assert Abs(y, d').log == Abs(y, d).log[t := v];
    assert Abs(y, d').home == Abs(y, d).home;
  }

  lemma AbsHeadWrite(y: Layout, d: seq<Block>, v: Block)
    requires Fits(y, d) && |v| == BSIZE
    ensures Fits(y, d[y.start := v])
    ensures Abs(y, d[y.start := v]) == Abs(y, d).(head := DecodeHead(v))
  {
    var d' := d[y.start := v];
    assert Abs(y, d').log == Abs(y, d).log;
    assert Abs(y, d').home == Abs(y, d).home;
  }

  lemma AbsHomeWrite(y: Layout, d: seq<Block>, b: int, v: Block)
    requires Fits(y, d) && Home(y, b) && |v| == BSIZE
    ensures Fits(y, d[b := v])
    ensures Abs(y, d[b := v]) == Abs(y, d).(home := Abs(y, d).home[b := v])
  {
    var d' := d[b := v];
    assert Abs(y, d').log == Abs(y, d).log;
    assert Abs(y, d').home == Abs(y, d).home[b := v];
  }

  /** Block numbers that may stand in a log header: distinct, outside the log, and not too many. */
  ghost predicate Loggable(y: Layout, lh: seq<int>)
  {
    && |lh| < y.size && |lh| <= LOGSIZE
    && Distinct(lh)
    && y.count <= UINT_RANGE
    && forall i :: 0 <= i < |lh| ==> Home(y, lh[i])
  }

  /** The first t blocks of the group have reached their homes. */
  ghost predicate InPlace(d: P.Disk, t: nat)
  {
    && t <= |d.head| <= |d.log|
    && forall i :: 0 <= i < t ==> d.head[i] in d.home && d.home[d.head[i]] == d.log[i]
  }

  lemma InPlaceNext(d: P.Disk, t: nat)
    requires InPlace(d, t) && t < |d.head| && Distinct(d.head)
    ensures InPlace(d.(home := d.home[d.head[t] := d.log[t]]), t + 1)
  {
  }

  /** The first t logged blocks have been copied from the cache to the log area, and no other block has changed. */
  ghost predicate Copied(d0: seq<Block>, d: seq<Block>, start: nat, lh: seq<int>, cache: map<int, Block>, t: nat)
  {
    && |d| == |d0| && t <= |lh| && start + |lh| < |d0| && (forall i :: 0 <= i < |lh| ==> lh[i] in cache)
    && (forall i :: 0 <= i < t ==> d[start + 1 + i] == cache[lh[i]])
    && (forall b :: 0 <= b < |d| && !(start < b <= start + t) ==> d[b] == d0[b])
  }

  lemma CopiedNone(y: Layout, d: seq<Block>, lh: seq<int>, cache: map<int, Block>)
    requires Fits(y, d) && Loggable(y, lh) && forall i :: 0 <= i < |lh| ==> lh[i] in cache
    ensures Copied(d, d, y.start, lh, cache, 0)
  {
  }

  lemma CopiedNext(d0: seq<Block>, d: seq<Block>, start: nat, lh: seq<int>, cache: map<int, Block>, t: nat)
    requires Copied(d0, d, start, lh, cache, t) && t < |lh|
    ensures Copied(d0, d[start + t + 1 := cache[lh[t]]], start, lh, cache, t + 1)
  {
  }

  /** The first t logged blocks have been copied from the log area to their homes, and no other block has changed. */
  ghost predicate Installed(d0: seq<Block>, d: seq<Block>, start: nat, lh: seq<int>, t: nat)
  {
    && |d| == |d0| && t <= |lh| && start + t < |d0| && (forall i :: 0 <= i < |lh| ==> 0 <= lh[i] < |d|)
    && (forall i :: 0 <= i < t ==> d[lh[i]] == d0[start + 1 + i])
    && (forall b :: 0 <= b < |d| && b !in lh[..t] ==> d[b] == d0[b])
  }

  lemma InstalledNone(y: Layout, d: seq<Block>, lh: seq<int>)
    requires Fits(y, d) && Loggable(y, lh)
    ensures Installed(d, d, y.start, lh, 0)
  {
  }

  lemma InstalledNext(d0: seq<Block>, d: seq<Block>, d': seq<Block>, y: Layout, lh: seq<int>, t: nat)
    requires Installed(d0, d, y.start, lh, t) && Loggable(y, lh) && t < |lh| && y.start + y.size <= |d|
    requires d' == d[lh[t] := d[y.start + 1 + t]]
    ensures Installed(d0, d', y.start, lh, t + 1)
  {
    assert y.start + 1 + t !in lh[..t];
    assert lh[..t + 1] == lh[..t] + [lh[t]];
  }

  /** Every disk in the trace would recover to these home blocks. */
  ghost predicate AllRecoverTo(ds: seq<P.Disk>, home: map<int, Block>)
  {
    forall i :: 0 <= i < |ds| ==> P.LogFits(ds[i]) && P.Recovered(ds[i]) == home
  }

  lemma RecoverAll(d: P.Disk, ds: seq<P.Disk>, home: map<int, Block>)
    requires P.LogFits(d) && P.Recovered(d) == home && AllRecoverTo(ds, home)
    ensures AllRecoverTo([d] + ds, home)
  {
  }

  lemma RecoverMore(ds: seq<P.Disk>, d: P.Disk, home: map<int, Block>)
    requires P.LogFits(d) && P.Recovered(d) == home && AllRecoverTo(ds, home)
    ensures AllRecoverTo(ds + [d], home)
  {
  }

  /** The home blocks with the logged ones replaced by what the cache shows. */
  ghost function Overlay(home: map<int, Block>, lh: seq<int>, cache: map<int, Block>): map<int, Block>
  {
    map b | b in home :: if b in lh && b in cache then cache[b] else home[b]
  }

  class Log {
    const layout: Layout
    const disk: array<Block>
    const block: array<int>      // lh.block
    var n: nat                   // lh.n
    var outstanding: int
    var committing: bool
    var cache: map<int, Block>   // data of cached home blocks
    ghost var trace: seq<P.Disk>

    /** initlog: take over a disk, whatever state a crash left its log in. */
    constructor InitLog(d: array<Block>, y: Layout)
      requires Fits(y, d[..]) && Loggable(y, Abs(y, d[..]).head)
      modifies d
      ensures Valid() && disk == d && n == 0 && outstanding == 0 && !committing
      ensures Now().head == [] && P.LogFits(old(Abs(y, d[..])))
      ensures Now().home == P.Recovered(old(Abs(y, d[..])))
    {
      layout, disk, block := y, d, new int[LOGSIZE];
      n, outstanding, committing, cache, trace := 0, 0, false, map[], [];
      new;
      RecoverFromLog();
    }

    ghost predicate Valid()
      reads this, disk, block
    {
      && Fits(layout, disk[..])
      && block.Length == LOGSIZE && n <= LOGSIZE
      && Loggable(layout, block[..n])
      && (forall i :: 0 <= i < n ==> block[i] in cache)
      && (forall b :: b in cache ==> |cache[b]| == BSIZE)
    }

    ghost function Now(): P.Disk
      reads this, disk
      requires Fits(layout, disk[..])
    {
      Abs(layout, disk[..])
    }

    /** iderw of a dirty buffer: one block reaches the disk. */
    method Bwrite(b: nat, data: Block)
      requires Fits(layout, disk[..]) && b < disk.Length && |data| == BSIZE
      modifies disk, this`trace
      ensures disk[..] == old(disk[..])[b := data]
      ensures Fits(layout, disk[..]) && trace == old(trace) + [Now()]
    {
      disk[b] := data;
      assert disk[..] == old(disk[..])[b := data];
      trace := trace + [Now()];
    }

    /** Copy the logged blocks from the cache to the log area. */
    method WriteLog()
      requires Valid()
      modifies disk, this`trace
      ensures Valid()
      ensures Now().head == old(Now().head) && Now().home == old(Now().home)
      ensures forall i :: 0 <= i < n ==> Now().log[i] == cache[block[i]]
      ensures Copied(old(disk[..]), disk[..], layout.start, block[..n], cache, n)
      ensures |trace| == old(|trace|) + n && old(trace) <= trace
      ensures forall k :: old(|trace|) <= k < |trace| ==>
        trace[k].head == old(Now().head) && trace[k].home == old(Now().home) && |trace[k].log| == layout.size - 1
    {
      hide DecodeHead, Home, Copied;
      CopiedNone(layout, disk[..], block[..n], cache);
      var tail := 0;
      while tail < n
        invariant 0 <= tail <= n
        invariant Fits(layout, disk[..])
        invariant Now().head == old(Now().head) && Now().home == old(Now().home)
        invariant forall i :: 0 <= i < tail ==> Now().log[i] == cache[block[i]]
        invariant Copied(old(disk[..]), disk[..], layout.start, block[..n], cache, tail)
        invariant |trace| == old(|trace|) + tail && old(trace) <= trace
        invariant forall k :: old(|trace|) <= k < |trace| ==>
          trace[k].head == old(Now().head) && trace[k].home == old(Now().home) && |trace[k].log| == layout.size - 1
      {
        AbsLogWrite(layout, disk[..], tail, cache[block[tail]]);
        CopiedNext(old(disk[..]), disk[..], layout.start, block[..n], cache, tail);
        Bwrite(layout.start + tail + 1, cache[block[tail]]);
        tail := tail + 1;
      }
    }

    /** Store the in-memory header in the header block, leaving the rest of that block alone. */
    method WriteHead()
      requires Valid()
      modifies disk, this`trace
      ensures Valid()
      ensures Now() == old(Now()).(head := block[..n])
      ensures trace == old(trace) + [Now()]
      ensures disk[..] == old(disk[..])[layout.start := disk[layout.start]]
      ensures HeadWords(old(disk[layout.start]), disk[layout.start], block[..n])
    {
      hide HeadWords, DecodeHead, GetWord, SetWord;
      var hb := SetWord(disk[layout.start], 0, n);
      var i := 0;
      while i < n
        invariant 0 <= i <= n
        invariant hb == StoreNumbers(SetWord(disk[layout.start], 0, n), block[..i])
      {
        assert block[..i + 1][..i] == block[..i];
        assert Home(layout, block[..n][i]);
        hb := SetWord(hb, i + 1, block[i]);
        i := i + 1;
      }
      HeadRoundTrip(disk[layout.start], block[..n]);
      HeadStored(disk[layout.start], block[..n]);
      AbsHeadWrite(layout, disk[..], hb);
      Bwrite(layout.start, hb);
    }

    /** One turn of install_trans: log block tail goes to its home. */
    method InstallOne(tail: nat)
      requires Valid() && tail < n && Now().head == block[..n]
      modifies disk, this`trace, this`cache
      ensures Valid() && P.LogFits(old(Now()))
      ensures Now() == old(Now()).(home := old(Now()).home[block[tail] := old(Now()).log[tail]])
      ensures P.Recovered(Now()) == P.Recovered(old(Now()))
      ensures trace == old(trace) + [Now()]
      ensures cache == old(cache)[block[tail] := old(Now()).log[tail]]
      ensures Home(layout, block[tail]) && disk[..] == old(disk[..])[block[tail] := old(disk[layout.start + 1 + tail])]
    {
      hide P.Recovered, P.Replay, DecodeHead;
      ghost var before := Now();
      var data := disk[layout.start + tail + 1];
      LogAt(layout, disk[..], tail);
      assert Home(layout, block[..n][tail]);
      AbsHomeWrite(layout, disk[..], block[tail], data);
      Bwrite(block[tail], data);
      LogProof.InstallKeeps(before, Now(), tail);
      cache := cache[block[tail] := data];
    }

    /** Copy the logged blocks from the log area to their homes. */
    method InstallTrans()
      requires Valid() && Now().head == block[..n]
      modifies disk, this`trace, this`cache
      ensures Valid() && P.LogFits(old(Now()))
      ensures Now() == old(Now()).(home := P.Recovered(old(Now())))
      ensures old(trace) <= trace && |trace| == old(|trace|) + n
      ensures AllRecoverTo(trace[old(|trace|)..], P.Recovered(old(Now())))
      ensures Installed(old(disk[..]), disk[..], layout.start, block[..n], n)
    {
      hide P.Recovered, P.Replay, DecodeHead, Home, Installed;
      InstalledNone(layout, disk[..], block[..n]);
      ghost var start, cur := Now(), Now();
      ghost var goal := P.Recovered(start);
      var tail := 0;
      while tail < n
        invariant 0 <= tail <= n && Valid() && Now() == cur
        invariant cur == start.(home := cur.home) && P.Recovered(cur) == goal
        invariant InPlace(cur, tail)
        invariant |trace| == old(|trace|) + tail && old(trace) <= trace
        invariant AllRecoverTo(trace[old(|trace|)..], goal)
        invariant Installed(old(disk[..]), disk[..], layout.start, block[..n], tail)
      {
        ghost var sofar := trace[old(|trace|)..];
        ghost var disk1 := disk[..];
        InstallOne(tail);
        InstalledNext(old(disk[..]), disk1, disk[..], layout, block[..n], tail);
        InPlaceNext(cur, tail);
        cur := cur.(home := cur.home[cur.head[tail] := cur.log[tail]]);
        assert trace[old(|trace|)..] == sofar + [cur];
        RecoverMore(sofar, cur, goal);
        tail := tail + 1;
      }
      LogProof.ReplayInstalled(cur);
    }

    /** Install the group and erase the header: no crash point inside changes what recovery leaves. */
    method InstallAndClear()
      requires Valid() && Now().head == block[..n]
      modifies this`n, this`trace, this`cache, disk
      ensures Valid() && n == 0 && P.LogFits(old(Now()))
      ensures Now().head == [] && Now().home == P.Recovered(old(Now()))
      ensures old(trace) <= trace && AllRecoverTo(trace[old(|trace|)..], P.Recovered(old(Now())))
    {
      hide Installed, HeadWords;
      ghost var t0 := |trace|;
      InstallTrans();
      ghost var installed := trace[t0..];
      n := 0;
      WriteHead();
      assert trace[t0..] == installed + [Now()];
    }

    /** Log the group and write its header: the last of these writes is the one that commits. */
    method LogGroup()
      requires Valid() && Now().head == []
      modifies this`trace, disk
      ensures Valid() && Now().head == block[..n]
      ensures P.Recovered(Now()) == Overlay(old(Now().home), block[..n], cache)
      ensures |trace| == old(|trace|) + n + 1 && old(trace) <= trace && trace[|trace| - 1] == Now()
      ensures AllRecoverTo(trace[old(|trace|)..|trace| - 1], old(Now().home))
    {
      hide Copied, HeadWords;
      ghost var t0 := |trace|;
      ghost var home := Now().home;
      WriteLog();
      ghost var logged := trace[t0..];
      assert AllRecoverTo(logged, home);
      WriteHead();
      assert trace[t0..|trace| - 1] == logged;
      assert forall i :: 0 <= i < n ==> Home(layout, block[..n][i]);
      OverlayIsReplay(Now(), block[..n], cache);
    }

    /** Commit: nothing of the group before the header write, all of it from then on. */
    method Commit()
      requires Valid() && Now().head == []
      modifies this`n, this`trace, this`cache, disk
      ensures Valid() && n == 0 && Now().head == []
      ensures Now().home == Overlay(old(Now().home), old(block[..n]), old(cache))
      ensures old(n) == 0 ==> trace == old(trace)
      ensures old(trace) <= trace
      ensures old(n) > 0 ==>
        && |trace| > old(|trace| + n)
        && AllRecoverTo(trace[old(|trace|)..old(|trace| + n)], old(Now().home))
        && AllRecoverTo(trace[old(|trace| + n)..], Now().home)
    {
      hide P.Recovered, P.Replay, DecodeHead, Home;
      if n > 0 {
        ghost var t0, t1 := |trace|, |trace| + n;
        LogGroup();
        ghost var logged, head := trace[t0..t1], Now();
        InstallAndClear();
        assert trace[t0..t1] == logged;
        assert trace[t1..] == [head] + trace[t1 + 1..];
        RecoverAll(head, trace[t1 + 1..], Now().home);
      } else {
        assert Overlay(Now().home, block[..n], cache) == Now().home;
      }
    }

    /** At boot: finish what a committed header promises, then clear it. */
    method RecoverFromLog()
      requires Fits(layout, disk[..]) && block.Length == LOGSIZE
      requires Loggable(layout, Now().head)
      modifies this`n, this`trace, this`cache, disk, block
      ensures Valid() && n == 0 && P.LogFits(old(Now()))
      ensures Now().head == [] && Now().home == P.Recovered(old(Now()))
      ensures old(trace) <= trace && AllRecoverTo(trace[old(|trace|)..], P.Recovered(old(Now())))
    {
      ReadHead();
      InstallAndClear();
    }

    /** One pass of begin_op's loop: either the call may proceed, or it must sleep and try again. */
    method BeginOp() returns (proceed: bool)
      modifies this`outstanding
      ensures proceed <==> !committing && n + (old(outstanding) + 1) * MAXOPBLOCKS <= LOGSIZE
      ensures outstanding == if proceed then old(outstanding) + 1 else old(outstanding)
      ensures proceed ==> n + outstanding * MAXOPBLOCKS <= LOGSIZE
    {
      if committing {
        return false;
      } else if n + (outstanding + 1) * MAXOPBLOCKS > LOGSIZE {
        return false;
      }
      outstanding := outstanding + 1;
      return true;
    }

    /** end_op.  The last call out commits; panic says the test on committing fired, and woke that
        it called wakeup(&log). */
    method EndOp() returns (panic: bool, woke: bool)
      requires Valid() && Now().head == []
      modifies this, disk
      ensures panic == old(committing) && woke == !panic
      ensures outstanding == old(outstanding) - 1
      ensures !panic && outstanding == 0 ==>
        && Valid() && n == 0 && !committing && Now().head == []
        && Now().home == Overlay(old(Now().home), old(block[..n]), old(cache))
      ensures old(trace) <= trace
      ensures !panic && outstanding == 0 && old(n) > 0 ==>
        && |trace| > old(|trace| + n)
        && AllRecoverTo(trace[old(|trace|)..old(|trace| + n)], old(Now().home))
        && AllRecoverTo(trace[old(|trace| + n)..], Now().home)
      ensures panic || outstanding != 0 || old(n) == 0 ==> trace == old(trace)
      ensures panic || outstanding != 0 ==>
        disk[..] == old(disk[..]) && n == old(n) && cache == old(cache) && committing == old(committing)
    {
      outstanding := outstanding - 1;
      if committing {
        return true, false;
      }
      if outstanding == 0 {
        committing := true;
        Commit();
        committing := false;
      }
      return false, true;
    }

    /** log_write of a cached block.  panic says one of its two tests fired. */
    method LogWrite(b: int) returns (panic: bool)
      requires Valid() && b in cache && Home(layout, b)
      requires layout.count <= UINT_RANGE
      modifies this`n, block
      ensures Valid()
      ensures panic <==> old(n) >= LOGSIZE || old(n) >= layout.size - 1 || outstanding < 1
      ensures block[..n] == if panic || b in old(block[..n]) then old(block[..n]) else old(block[..n]) + [b]
      ensures disk[..] == old(disk[..])
    {
      if n >= LOGSIZE || n >= layout.size - 1 {
        return true;
      }
      if outstanding < 1 {
        return true;
      }
      var i := 0;
      while i < n
        invariant 0 <= i <= n
        invariant b !in block[..i]
      {
        if block[i] == b {
          break;
        }
        i := i + 1;
      }
      block[i] := b;
      if i == n {
        assert block[..n + 1] == old(block[..n]) + [b];
        n := n + 1;
      } else {
        assert block[..n] == old(block[..n]);
      }
      return false;
    }

    /** Load the on-disk header and the blocks it names. */
    method ReadHead()
      requires Fits(layout, disk[..]) && block.Length == LOGSIZE
      requires Loggable(layout, Now().head)
      modifies this`n, this`cache, block
      ensures Valid() && block[..n] == Now().head && disk[..] == old(disk[..])
      ensures n == GetWord(disk[layout.start], 0)
      ensures forall i :: 0 <= i < n ==> block[i] == GetWord(disk[layout.start], i + 1)
    {
      ghost var head := Now().head;
      var hb := disk[layout.start];
      n := GetWord(hb, 0);
      assert |head| == n;
      cache := map[];
      var i := 0;
      while i < n
        invariant 0 <= i <= n == |head| && disk[..] == old(disk[..])
        invariant block[..i] == head[..i] && forall j :: 0 <= j < i ==> block[j] == GetWord(hb, j + 1)
        invariant forall j :: 0 <= j < i ==> block[j] in cache
        invariant forall b :: b in cache ==> |cache[b]| == BSIZE
      {
        block[i] := GetWord(hb, i + 1);
        assert Home(layout, head[i]);
        cache := cache[block[i] := disk[block[i]]];
        i := i + 1;
      }
      assert block[..n] == head;
    }
  }

  /** After the header write, recovery would put the cached contents of the group in place. */
  lemma OverlayIsReplay(d: P.Disk, lh: seq<int>, cache: map<int, Block>)
    requires d.head == lh && |lh| <= |d.log| && Distinct(lh)
    requires forall i :: 0 <= i < |lh| ==> lh[i] in d.home && lh[i] in cache && d.log[i] == cache[lh[i]]
    ensures P.Recovered(d) == Overlay(d.home, lh, cache)
  {
    LogProof.RecoveredAt(d);
    var r, o := P.Recovered(d), Overlay(d.home, lh, cache);
    forall b ensures (b in r <==> b in o) && (b in r ==> r[b] == o[b]) {
      if b in lh {
        var i :| 0 <= i < |lh| && lh[i] == b;
      }
    }
  }
}
