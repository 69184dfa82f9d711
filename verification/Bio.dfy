/**
The buffer cache of bio.c.  Buffers are numbered 0 up to n - 1 and the list head is n; next and
prev are the links of a doubly linked list through all of them.  The disk obeys the contract
of iderw in memide.c.
*/
module Bio {
  import opened Blocks
  import opened Seqs

  datatype Key = Key(dev: int, blockno: int)

  /** struct buf, without its links. */
  datatype Buf = Buf(key: Key, busy: bool, valid: bool, dirty: bool, data: Block)

  const NODEV := -1

  // ---------------------------------------------------------------- the doubly linked ring

  function Succ(i: int, n: int): int
  {
    if i + 1 == n then 0 else i + 1
  }

  ghost predicate LinkOk(next: seq<int>, prev: seq<int>, cyc: seq<int>, i: int)
    requires 0 <= i < |cyc|
  {
    var b, c := cyc[i], cyc[Succ(i, |cyc|)];
    0 <= b < |next| && 0 <= c < |prev| && next[b] == c && prev[c] == b
  }

  /** next and prev spell out cyc as a ring, each way. */
  ghost predicate Ring(next: seq<int>, prev: seq<int>, cyc: seq<int>)
  {
    && |cyc| >= 1 && |next| == |prev| && Distinct(cyc)
    && forall i :: 0 <= i < |cyc| ==> LinkOk(next, prev, cyc, i)
  }

  function Without(cyc: seq<int>, k: int): seq<int>
    requires 0 <= k < |cyc|
  {
    cyc[..k] + cyc[k + 1..]
  }

  lemma Unlink(next: seq<int>, prev: seq<int>, cyc: seq<int>, k: int)
    requires Ring(next, prev, cyc) && 1 <= k < |cyc|
    ensures var b := cyc[k];
      && 0 <= b < |next| && 0 <= next[b] < |next| && 0 <= prev[b] < |prev|
      && Ring(next[prev[b] := next[b]], prev[next[b] := prev[b]], Without(cyc, k))
  {
    var n := |cyc|;
    assert LinkOk(next, prev, cyc, k) && LinkOk(next, prev, cyc, k - 1);
    var b := cyc[k];
    var next', prev', cyc' := next[prev[b] := next[b]], prev[next[b] := prev[b]], Without(cyc, k);
    forall i | 0 <= i < |cyc'| ensures LinkOk(next', prev', cyc', i) {
      var j := if i < k then i else i + 1;
      assert LinkOk(next, prev, cyc, j);
      assert cyc'[i] == cyc[j];
      UnlinkAt(cyc, k, i);
    }
  }

  /** The neighbour after position i once cyc[k] is gone. */
  lemma UnlinkAt(cyc: seq<int>, k: int, i: int)
    requires 1 <= k < |cyc| && 0 <= i < |cyc| - 1
    ensures var cyc', n := Without(cyc, k), |cyc|;
      cyc'[Succ(i, n - 1)] == if i == k - 1 then cyc[Succ(k, n)] else cyc[Succ(if i < k then i else i + 1, n)]
  {
  }

  /** b put right after the head. */
  function InFront(cyc: seq<int>, b: int): seq<int>
    requires |cyc| >= 1
  {
    [cyc[0], b] + cyc[1..]
  }

  lemma Link(next: seq<int>, prev: seq<int>, cyc: seq<int>, b: int)
    requires Ring(next, prev, cyc) && 0 <= b < |next| && b !in cyc
    ensures var h := cyc[0];
      && 0 <= h < |next| && 0 <= next[h] < |next| && h != b && next[h] != b
      && Ring(next[b := next[h]][h := b], prev[b := h][next[h] := b], InFront(cyc, b))
  {
    var n, h := |cyc|, cyc[0];
    assert LinkOk(next, prev, cyc, 0);
    var f := next[h];
    assert f == cyc[Succ(0, n)];
    var next', prev', cyc' := next[b := f][h := b], prev[b := h][f := b], InFront(cyc, b);
    forall i | 0 <= i < |cyc'| ensures LinkOk(next', prev', cyc', i) {
      if i >= 2 {
        assert LinkOk(next, prev, cyc, i - 1);
        assert cyc'[i] == cyc[i - 1];
      }
    }
  }

  /** The list after b = cyc[k] is released. */
  function Fronted(cyc: seq<int>, k: int): seq<int>
    requires 1 <= k < |cyc|
  {
    InFront(Without(cyc, k), cyc[k])
  }

  lemma FrontedAt(cyc: seq<int>, k: int) returns (r: seq<int>)
    requires 1 <= k < |cyc|
    ensures r == Fronted(cyc, k) && |r| == |cyc| && r[0] == cyc[0] && r[1] == cyc[k]
    ensures forall i :: 2 <= i <= k ==> r[i] == cyc[i - 1]
    ensures forall i :: k < i < |cyc| ==> r[i] == cyc[i]
  {
    r := Fronted(cyc, k);
  }

  /** Every buffer and the head are in the ring, which starts at the head n. */
  ghost predicate Complete(cyc: seq<int>, n: int)
  {
    n >= 0 && |cyc| == n + 1 && cyc[0] == n && forall b :: 0 <= b <= n ==> b in cyc
  }

  lemma FrontedComplete(cyc: seq<int>, k: int, n: int)
    requires Complete(cyc, n) && 1 <= k < |cyc|
    ensures Complete(Fronted(cyc, k), n)
  {
    hide Fronted;
    var r := FrontedAt(cyc, k);
    forall b | 0 <= b <= n ensures b in r {
      assert b in cyc;
      var i :| 0 <= i < |cyc| && cyc[i] == b;
      var j := if i == k then 1 else if 0 < i < k then i + 1 else i;
      assert r[j] == b;
    }
  }

  /** Buffers released later come first. */
  ghost predicate ByRelease(cyc: seq<int>, stamp: seq<int>, clock: int)
  {
    && (forall i :: 1 <= i < |cyc| ==> 0 <= cyc[i] < |stamp| && stamp[cyc[i]] < clock)
    && (forall i, j :: 1 <= i < j < |cyc| ==>
          0 <= cyc[i] < |stamp| && 0 <= cyc[j] < |stamp| && stamp[cyc[i]] > stamp[cyc[j]])
  }

  lemma FrontedByRelease(cyc: seq<int>, stamp: seq<int>, clock: int, k: int)
    requires ByRelease(cyc, stamp, clock) && Distinct(cyc) && 1 <= k < |cyc|
    ensures ByRelease(Fronted(cyc, k), stamp[cyc[k] := clock], clock + 1)
  {
    hide Fronted;
    var r := FrontedAt(cyc, k);
    var stamp' := stamp[cyc[k] := clock];
    forall i | 1 <= i < |r|
      ensures 0 <= r[i] < |stamp'| && stamp'[r[i]] < clock + 1 && (i > 1 ==> stamp'[r[i]] == stamp[r[i]] < clock)
    {
    }
    forall i, j | 1 <= i < j < |r| ensures stamp'[r[i]] > stamp'[r[j]] {
      var i', j' := if i == 1 then k else if i <= k then i - 1 else i, if j <= k then j - 1 else j;
      assert r[j] == cyc[j'] && r[i] == cyc[i'];
    }
  }

  // ---------------------------------------------------------------- contents

  /** Each block of a real device has at most one buffer. */
  ghost predicate Unique(buf: seq<Buf>)
  {
    forall a, b :: 0 <= a < |buf| && 0 <= b < |buf| && buf[a].key == buf[b].key && buf[a].key.dev != NODEV ==> a == b
  }

  ghost predicate BufOk(b: Buf, disk: map<Key, Block>, latest: map<Key, Block>)
  {
    && (b.dirty ==> b.valid)
    && (b.valid ==> b.key in disk && b.key.dev != NODEV && b.key in latest && latest[b.key] == b.data)
    && (b.valid && !b.busy && !b.dirty ==> disk[b.key] == b.data)
  }

  ghost predicate Cached(buf: seq<Buf>, key: Key)
  {
    exists b :: 0 <= b < |buf| && buf[b].valid && buf[b].key == key
  }

  /** latest is what the buffers and, where there is none, the disk say. */
  ghost predicate Coherent(buf: seq<Buf>, disk: map<Key, Block>, latest: map<Key, Block>)
  {
    && Unique(buf) && latest.Keys == disk.Keys
    && (forall b :: 0 <= b < |buf| ==> BufOk(buf[b], disk, latest))
    && (forall key :: key in disk && !Cached(buf, key) ==> latest[key] == disk[key])
  }

  /** A buffer with no claim on its old block is given to another, uncached one. */
  lemma RecycleCoherent(buf: seq<Buf>, disk: map<Key, Block>, latest: map<Key, Block>, b: int, key: Key)
    requires Coherent(buf, disk, latest) && 0 <= b < |buf| && !buf[b].busy && !buf[b].dirty
    requires forall a :: 0 <= a < |buf| ==> buf[a].key != key
    ensures Coherent(buf[b := buf[b].(key := key, busy := true, valid := false, dirty := false)], disk, latest)
  {
    var buf' := buf[b := buf[b].(key := key, busy := true, valid := false, dirty := false)];
    forall k | k in disk && !Cached(buf', k) ensures latest[k] == disk[k] {
      if buf[b].valid && buf[b].key == k {
        assert BufOk(buf[b], disk, latest);
      } else {
        StillCached(buf, b, buf'[b], k);
      }
    }
  }

  lemma StillCached(buf: seq<Buf>, b: int, u: Buf, k: Key)
    requires 0 <= b < |buf| && (!buf[b].valid || buf[b].key != k || (u.valid && u.key == k))
    ensures Cached(buf, k) ==> Cached(buf[b := u], k)
  {
    if Cached(buf, k) {
      var a :| 0 <= a < |buf| && buf[a].valid && buf[a].key == k;
      var buf' := buf[b := u];
      assert buf'[a].valid && buf'[a].key == k;
    }
  }

  /** One buffer changes its flags or data, not its key; the key's contents change with it. */
  lemma UpdateCoherent(buf: seq<Buf>, disk: map<Key, Block>, latest: map<Key, Block>, b: int, u: Buf,
                       disk': map<Key, Block>)
    requires Coherent(buf, disk, latest) && 0 <= b < |buf| && u.key == buf[b].key && u.valid && u.key in disk
    requires u.key.dev != NODEV
    requires disk' == disk || disk' == disk[u.key := u.data]
    requires u.busy || u.dirty || disk'[u.key] == u.data
    ensures Coherent(buf[b := u], disk', latest[u.key := u.data])
  {
    var buf', latest' := buf[b := u], latest[u.key := u.data];
    assert buf'[b] == u;
    forall a | 0 <= a < |buf'| ensures BufOk(buf'[a], disk', latest') {
      assert BufOk(buf[a], disk, latest);
    }
    forall k | k in disk' && !Cached(buf', k) ensures latest'[k] == disk'[k] {
      assert k != u.key;
      StillCached(buf, b, u, k);
    }
  }

  lemma BusyCoherent(buf: seq<Buf>, disk: map<Key, Block>, latest: map<Key, Block>, b: int)
    requires Coherent(buf, disk, latest) && 0 <= b < |buf|
    ensures Coherent(buf[b := buf[b].(busy := true)], disk, latest)
  {
    var u := buf[b].(busy := true);
    var buf' := buf[b := u];
    forall a | 0 <= a < |buf'| ensures BufOk(buf'[a], disk, latest) {
      assert BufOk(buf[a], disk, latest);
    }
    forall k | k in disk && !Cached(buf', k) ensures latest[k] == disk[k] {
      StillCached(buf, b, u, k);
    }
  }

  lemma HeadOnly(next: seq<int>, prev: seq<int>, n: int)
    requires n >= 0 && |next| == |prev| == n + 1 && next[n] == prev[n] == n
    ensures Ring(next, prev, [n])
  {
    assert LinkOk(next, prev, [n], 0);
  }

  /** binit's list and buffers are a cache that holds nothing. */
  lemma Started(cyc: seq<int>, stamp: seq<int>, buf: seq<Buf>, n: int, contents: map<Key, Block>)
    requires n >= 0 && |cyc| == n + 1 && cyc[0] == n && (forall i :: 1 <= i <= n ==> cyc[i] == n - i)
    requires |stamp| == |buf| == n
    requires forall i :: 0 <= i < n ==> stamp[i] == i && buf[i] == Buf(Key(NODEV, 0), false, false, false, [])
    ensures Complete(cyc, n) && ByRelease(cyc, stamp, n) && Coherent(buf, contents, contents)
  {
    forall x | 0 <= x <= n ensures x in cyc {
      assert cyc[if x == n then 0 else n - x] == x;
    }
  }

  // ---------------------------------------------------------------- the cache

  datatype GetResult = Got(b: int) | MustSleep(b: int) | NoBuffers

  class Bcache {
    const n: int
    var next: seq<int>
    var prev: seq<int>
    var buf: seq<Buf>
    var disk: map<Key, Block>
    ghost var cyc: seq<int>             // the list from the head, most recently released first
    ghost var stamp: seq<int>           // when each buffer was last released
    ghost var clock: int
    ghost var latest: map<Key, Block>   // the contents of every block, as last written by a holder

    ghost predicate Valid()
      reads this
    {
      && n >= 0 && |buf| == n && |stamp| == n && |next| == n + 1
      && Ring(next, prev, cyc) && Complete(cyc, n) && ByRelease(cyc, stamp, clock)
      && Coherent(buf, disk, latest)
    }

    /** binit. */
    constructor (size: int, contents: map<Key, Block>)
      requires size >= 0
      ensures Valid() && n == size && latest == disk == contents
      ensures forall b :: 0 <= b < n ==> !buf[b].busy && !buf[b].dirty && !buf[b].valid && buf[b].key.dev == NODEV
    {
      hide Coherent, Complete, ByRelease, Ring;
      n := size;
      disk, latest := contents, contents;
      buf := seq(size, _ => Buf(Key(NODEV, 0), false, false, false, []));
      stamp := seq(size, i => i);
      clock := size;
      next, prev := seq(size + 1, _ => size), seq(size + 1, _ => size);
      cyc := [size];
      new;
      HeadOnly(next, prev, n);
      var b := 0;
      while b < n
        invariant 0 <= b <= n == size && |next| == |prev| == n + 1 && |buf| == |stamp| == n && clock == n
        invariant disk == latest == contents
        invariant Ring(next, prev, cyc) && |cyc| == b + 1 && cyc[0] == n
        invariant forall i :: 1 <= i <= b ==> cyc[i] == b - i
        invariant forall i :: 0 <= i < n ==> stamp[i] == i && buf[i] == Buf(Key(NODEV, 0), false, false, false, [])
      {
        Link(next, prev, cyc, b);
        var f := next[n];
        next := next[b := f];
        prev := prev[b := n];
        prev := prev[f := b];
        next := next[n := b];
        cyc := InFront(cyc, b);
        b := b + 1;
      }
      Started(cyc, stamp, buf, n, contents);
    }

    lemma Forward(i: int)
      requires Valid() && 0 <= i <= n
      ensures next[cyc[i]] == cyc[Succ(i, n + 1)] && (i >= 1 ==> 0 <= cyc[i] < n)
      ensures prev[cyc[Succ(i, n + 1)]] == cyc[i]
    {
      assert LinkOk(next, prev, cyc, i);
    }

    /** A search from the head to the head has met every buffer. */
    lemma AllMet(b: int) returns (j: int)
      requires Valid() && 0 <= b < n
      ensures 1 <= j <= n && cyc[j] == b
    {
      assert b in cyc;
      j :| 0 <= j < |cyc| && cyc[j] == b;
    }

    /** bget's first loop: the buffer of block key, or n. */
    method FindCached(key: Key) returns (b: int)
      requires Valid()
      ensures 0 <= b <= n && (b < n ==> buf[b].key == key)
      ensures b == n ==> forall a :: 0 <= a < n ==> buf[a].key != key
    {
      hide Coherent, ByRelease;
      b := next[n];
      ghost var i := 1;
      Forward(0);
      while b != n
        invariant 1 <= i <= n + 1 && b == if i == n + 1 then n else cyc[i]
        invariant forall j :: 1 <= j < i ==> 0 <= cyc[j] < n && buf[cyc[j]].key != key
        decreases n - i
      {
        Forward(i);
        if buf[b].key == key {
          return;
        }
        b := next[b];
        i := i + 1;
      }
      forall a | 0 <= a < n ensures buf[a].key != key {
        var j := AllMet(a);
      }
    }

    /** bget's second loop: the clean free buffer released longest ago, or n. */
    method FindOldest() returns (b: int)
      requires Valid()
      ensures 0 <= b <= n && (b < n ==> !buf[b].busy && !buf[b].dirty)
      ensures b < n ==> forall a :: 0 <= a < n && !buf[a].busy && !buf[a].dirty ==> stamp[b] <= stamp[a]
      ensures b == n ==> forall a :: 0 <= a < n ==> buf[a].busy || buf[a].dirty
    {
      hide Coherent;
      b := prev[n];
      ghost var i := n;
      Forward(n);
      while b != n
        invariant 0 <= i <= n && b == cyc[i]
        invariant forall j :: i < j <= n ==> 0 <= cyc[j] < n && (buf[cyc[j]].busy || buf[cyc[j]].dirty)
        decreases i
      {
        Forward(i - 1);
        Forward(i);
        if !buf[b].busy && !buf[b].dirty {
          forall a | 0 <= a < n && !buf[a].busy && !buf[a].dirty ensures stamp[b] <= stamp[a] {
            var j := AllMet(a);
          }
          return;
        }
        b := prev[b];
        i := i - 1;
      }
      forall a | 0 <= a < n ensures buf[a].busy || buf[a].dirty {
        var j := AllMet(a);
      }
    }

    /** One pass of bget, under bcache.lock: the block's own buffer, or the eligible buffer
        released longest ago. */
    method Bget(key: Key) returns (r: GetResult)
      requires Valid() && key.dev != NODEV
      modifies this`buf
      ensures Valid()
      ensures match r
        case Got(b) => 0 <= b < n && !old(buf)[b].busy &&
            (if old(buf)[b].key == key then buf == old(buf)[b := old(buf)[b].(busy := true)]
             else && (forall a :: 0 <= a < n ==> old(buf)[a].key != key) && !old(buf)[b].dirty
                  && (forall a :: 0 <= a < n && !old(buf)[a].busy && !old(buf)[a].dirty ==> stamp[b] <= stamp[a])
                  && buf == old(buf)[b := old(buf)[b].(key := key, busy := true, valid := false, dirty := false)])
        case MustSleep(b) => 0 <= b < n && old(buf)[b].key == key && old(buf)[b].busy && buf == old(buf)
        case NoBuffers => buf == old(buf) && forall a :: 0 <= a < n ==>
          buf[a].key != key && (buf[a].busy || buf[a].dirty)
    {
      hide Ring, Complete, ByRelease, Coherent;
      var b := FindCached(key);
      if b != n {
        if !buf[b].busy {
          BusyCoherent(buf, disk, latest, b);
          buf := buf[b := buf[b].(busy := true)];
          return Got(b);
        }
        return MustSleep(b);
      }
      b := FindOldest();
      if b != n {
        RecycleCoherent(buf, disk, latest, b, key);
        buf := buf[b := buf[b].(key := key, busy := true, valid := false, dirty := false)];
        return Got(b);
      }
      r := NoBuffers;
    }

    /** The busy buffer b, held by the caller. */
    ghost predicate Held(b: int)
      reads this
    {
      0 <= b < n && b < |buf| && buf[b].busy && buf[b].valid
    }

    /** iderw: a dirty buffer is written, an invalid one read. */
    method Iderw(b: int)
      requires Valid() && 0 <= b < n && buf[b].busy && (buf[b].dirty || !buf[b].valid) && buf[b].key in disk
      requires buf[b].key.dev != NODEV
      modifies this`buf, this`disk
      ensures Valid() && Held(b) && !buf[b].dirty && buf[b].key == old(buf)[b].key
      ensures buf[b].data == disk[buf[b].key] == latest[buf[b].key]
      ensures old(buf)[b].dirty ==> buf[b].data == old(buf)[b].data
      ensures disk == old(disk)[buf[b].key := latest[buf[b].key]]
      ensures forall a :: 0 <= a < n && a != b ==> buf[a] == old(buf)[a]
    {
      hide Ring, Complete, ByRelease, Coherent;
      var key := buf[b].key;
      ghost var was, disk0 := buf, disk;
      LatestAt(buf, disk, latest, b);
      if buf[b].dirty {
        buf := buf[b := buf[b].(dirty := false)];
        disk := disk[key := buf[b].data];
      } else {
        buf := buf[b := buf[b].(data := disk[key])];
      }
      buf := buf[b := buf[b].(valid := true)];
      UpdateCoherent(was, disk0, latest, b, buf[b], disk);
      assert was[b := buf[b]] == buf;
      assert latest[key := buf[b].data] == latest;
    }

    /** bread: the buffer it returns holds the latest contents of the block. */
    method Bread(key: Key) returns (r: GetResult)
      requires Valid() && key.dev != NODEV && key in disk
      modifies this`buf, this`disk
      ensures Valid() && disk == old(disk)
      ensures r.Got? ==> Held(r.b) && buf[r.b].key == key && key in latest && buf[r.b].data == latest[key]
      ensures r.Got? ==> !old(buf)[r.b].busy && (old(buf)[r.b].key != key ==> !old(buf)[r.b].dirty)
      ensures forall a :: 0 <= a < n && !(r.Got? && a == r.b) ==> buf[a] == old(buf)[a]
    {
      hide Ring, Complete, ByRelease, Coherent;
      r := Bget(key);
      if r.Got? {
        LatestAt(buf, disk, latest, r.b);
        if !buf[r.b].valid {
          Iderw(r.b);
          assert disk == old(disk);
        }
      }
    }

    /** The holder of b changes its data. */
    method Modify(b: int, data: Block)
      requires Valid() && Held(b)
      modifies this`buf, this`latest
      ensures Valid() && Held(b) && buf == old(buf)[b := old(buf)[b].(data := data)]
      ensures latest == old(latest)[buf[b].key := data]
    {
      hide Ring, Complete, ByRelease, Coherent;
      BufAt(buf, disk, latest, b);
      UpdateCoherent(buf, disk, latest, b, buf[b].(data := data), disk);
      latest := latest[buf[b].key := data];
      buf := buf[b := buf[b].(data := data)];
    }

    /** log_write's mark: the buffer stays in the cache until its transaction is written. */
    method MarkDirty(b: int)
      requires Valid() && Held(b)
      modifies this`buf
      ensures Valid() && Held(b) && buf == old(buf)[b := old(buf)[b].(dirty := true)]
    {
      hide Ring, Complete, ByRelease, Coherent;
      BufAt(buf, disk, latest, b);
      UpdateCoherent(buf, disk, latest, b, buf[b].(dirty := true), disk);
      assert latest[buf[b].key := buf[b].data] == latest;
      buf := buf[b := buf[b].(dirty := true)];
    }

    /** bwrite: afterwards the disk has the buffer's contents. */
    method Bwrite(b: int)
      requires Valid() && Held(b)
      modifies this`buf, this`disk
      ensures Valid() && Held(b) && buf == old(buf)[b := old(buf)[b].(dirty := false)]
      ensures disk == old(disk)[buf[b].key := buf[b].data]
    {
      hide Ring, Complete, ByRelease, Coherent;
      MarkDirty(b);
      BufAt(buf, disk, latest, b);
      Iderw(b);
      assert buf == old(buf)[b := old(buf)[b].(dirty := false)];
    }

    /** brelse, by a holder who has marked dirty or written what it changed. */
    method Brelse(b: int)
      requires Valid() && Held(b) && buf[b].key in disk && (buf[b].dirty || buf[b].data == disk[buf[b].key])
      modifies this
      ensures Valid() && disk == old(disk) && latest == old(latest)
      ensures buf == old(buf)[b := old(buf)[b].(busy := false)]
      ensures stamp == old(stamp)[b := old(clock)] && forall a :: 0 <= a < n && a != b ==> stamp[a] < stamp[b]
    {
      hide Coherent, Fronted, Complete, ByRelease, Ring, Distinct;
      ghost var k := AllMet(b);
      Moved(next, prev, cyc, k, n, stamp, clock);
      BufAt(buf, disk, latest, b);
      UpdateCoherent(buf, disk, latest, b, buf[b].(busy := false), disk);
      assert latest[buf[b].key := buf[b].data] == latest;
      prev := prev[next[b] := prev[b]];
      next := next[prev[b] := next[b]];
      next := next[b := next[n]];
      prev := prev[b := n];
      prev := prev[next[n] := b];
      next := next[n := b];
      buf := buf[b := buf[b].(busy := false)];
      cyc, stamp, clock := Fronted(cyc, k), stamp[b := clock], clock + 1;
    }
  }

  lemma BufAt(buf: seq<Buf>, disk: map<Key, Block>, latest: map<Key, Block>, b: int)
    requires Coherent(buf, disk, latest) && 0 <= b < |buf| && buf[b].valid
    ensures buf[b].key in disk && buf[b].key in latest && buf[b].key.dev != NODEV && latest[buf[b].key] == buf[b].data
  {
    assert BufOk(buf[b], disk, latest);
  }

  /** brelse's six link writes move cyc[k] to the front of the ring. */
  lemma Moved(next: seq<int>, prev: seq<int>, cyc: seq<int>, k: int, n: int, stamp: seq<int>, clock: int)
    requires Ring(next, prev, cyc) && Complete(cyc, n) && ByRelease(cyc, stamp, clock) && |next| == n + 1 && 1 <= k <= n
    ensures |cyc| == n + 1
    ensures var b := cyc[k];
      && 0 <= b < n && 0 <= next[b] <= n && 0 <= prev[b] <= n && b < |stamp| && |prev| == n + 1
      && next[b] != b && prev[b] != b
      && var next1, prev1 := next[prev[b] := next[b]], prev[next[b] := prev[b]];
         0 <= next1[n] <= n && Ring(next1[b := next1[n]][n := b], prev1[b := n][next1[n] := b], Fronted(cyc, k))
    ensures Complete(Fronted(cyc, k), n) && ByRelease(Fronted(cyc, k), stamp[cyc[k] := clock], clock + 1)
    ensures forall a :: 0 <= a < |stamp| && a < n ==> stamp[a] < clock
  {
    var b := cyc[k];
    assert LinkOk(next, prev, cyc, k) && LinkOk(next, prev, cyc, k - 1);
    Unlink(next, prev, cyc, k);
    var next1, prev1 := next[prev[b] := next[b]], prev[next[b] := prev[b]];
    assert Without(cyc, k)[0] == n;
    Link(next1, prev1, Without(cyc, k), b);
    FrontedComplete(cyc, k, n);
    FrontedByRelease(cyc, stamp, clock, k);
    forall a | 0 <= a < |stamp| && a < n ensures stamp[a] < clock {
      assert a in cyc;
      var j :| 0 <= j < |cyc| && cyc[j] == a;
    }
  }

  /** What the cache holds for buffer b's block, when b is the block's only buffer. */
  lemma LatestAt(buf: seq<Buf>, disk: map<Key, Block>, latest: map<Key, Block>, b: int)
    requires Coherent(buf, disk, latest) && 0 <= b < |buf| && buf[b].key in disk && buf[b].key.dev != NODEV
    ensures buf[b].key in latest && (buf[b].dirty ==> buf[b].valid)
    ensures latest[buf[b].key] == if buf[b].valid then buf[b].data else disk[buf[b].key]
  {
    assert BufOk(buf[b], disk, latest);
  }
}
