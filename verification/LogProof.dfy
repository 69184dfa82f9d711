/** The invariant of the log protocol, its preservation, and what it means for every run. */
module LogProof {
  import opened Blocks
  import opened LogProtocol
  import opened Seqs

  // ---------------------------------------------------------------- replay and history

  lemma {:induction false} ReplayAt(d: Disk, n: nat)
    requires LogFits(d) && Distinct(d.head) && n <= |d.head|
    ensures forall i :: 0 <= i < n ==> d.head[i] in Replay(d, n) && Replay(d, n)[d.head[i]] == d.log[i]
    ensures forall b :: b !in d.head[..n] ==>
      (b in Replay(d, n) <==> b in d.home) && (b in d.home ==> Replay(d, n)[b] == d.home[b])
  {
    if n > 0 {
      ReplayAt(d, n - 1);
      assert d.head[..n] == d.head[..n - 1] + [d.head[n - 1]];
    }
  }

  lemma RecoveredAt(d: Disk)
    requires LogFits(d) && Distinct(d.head)
    ensures forall i :: 0 <= i < |d.head| ==> d.head[i] in Recovered(d) && Recovered(d)[d.head[i]] == d.log[i]
    ensures forall b :: b !in d.head ==>
      (b in Recovered(d) <==> b in d.home) && (b in d.home ==> Recovered(d)[b] == d.home[b])
  {
    ReplayAt(d, |d.head|);
    assert d.head[..|d.head|] == d.head;
  }

  /** Two disks replay alike when they differ only at home blocks the log will overwrite. */
  lemma ReplaySame(d: Disk, home': map<int, Block>)
    requires LogFits(d) && Distinct(d.head)
    requires forall b :: b !in d.head ==> (b in d.home <==> b in home') && (b in d.home ==> d.home[b] == home'[b])
    ensures Recovered(d) == Recovered(d.(home := home'))
  {
    hide Recovered;
    var d' := d.(home := home');
    RecoveredAt(d);
    RecoveredAt(d');
    var r, r' := Recovered(d), Recovered(d');
    forall b ensures (b in r <==> b in r') && (b in r ==> r[b] == r'[b]) {
      if b in d.head {
        var i :| 0 <= i < |d.head| && d.head[i] == b;
      }
    }
  }

  /** Once every logged block is in place, replaying the log changes nothing. */
  lemma ReplayInstalled(d: Disk)
    requires LogFits(d) && Distinct(d.head)
    requires forall i :: 0 <= i < |d.head| ==> d.head[i] in d.home && d.home[d.head[i]] == d.log[i]
    ensures Recovered(d) == d.home
  {
    hide Recovered;
    RecoveredAt(d);
    forall b ensures (b in Recovered(d) <==> b in d.home) && (b in d.home ==> Recovered(d)[b] == d.home[b]) {
      if b in d.head {
        var i :| 0 <= i < |d.head| && d.head[i] == b;
      }
    }
  }

  /** Installing one more block does not change what a full recovery leaves. */
  lemma InstallKeeps(d: Disk, d': Disk, t: nat)
    requires LogFits(d) && Distinct(d.head) && t < |d.head|
    requires d' == d.(home := d.home[d.head[t] := d.log[t]])
    ensures Recovered(d') == Recovered(d)
  {
    ReplaySame(d, d'.home);
  }

  lemma {:induction false} OnlySame(ws: seq<Write>, s: set<OpId>, s': set<OpId>)
    requires forall i :: 0 <= i < |ws| ==> (ws[i].op in s <==> ws[i].op in s')
    ensures Only(ws, s) == Only(ws, s')
  {
    if ws != [] {
      OnlySame(ws[..|ws| - 1], s, s');
    }
  }

  lemma OnlyAppend(ws: seq<Write>, w: Write, s: set<OpId>)
    ensures Only(ws + [w], s) == if w.op in s then Only(ws, s) + [w] else Only(ws, s)
  {
  }

  // ---------------------------------------------------------------- log space

  /** MAXOPBLOCKS budget not yet spent, over the running calls numbered below n. */
  ghost function Unspent(m: map<OpId, Progress>, maxOp: nat, n: int): int
    decreases n
  {
    if n <= 0 then 0
    else Unspent(m, maxOp, n - 1) + if n - 1 in m then maxOp - m[n - 1].used else 0
  }

  /** How many running calls are numbered below n. */
  ghost function Calls(m: map<OpId, Progress>, n: int): nat
    decreases n
  {
    if n <= 0 then 0 else Calls(m, n - 1) + if n - 1 in m then 1 else 0
  }

  /** n reservations of k blocks each. */
  ghost function Reserve(n: nat, k: nat): nat
  {
    if n == 0 then 0 else k + Reserve(n - 1, k)
  }

  lemma {:induction false} ReserveIsProduct(n: nat, k: nat)
    ensures Reserve(n, k) == n * k
  {
    if n > 0 {
      ReserveIsProduct(n - 1, k);
    }
  }

  lemma {:induction false} SumsAgree(m: map<OpId, Progress>, m': map<OpId, Progress>, maxOp: nat, n: int)
    requires forall k :: 0 <= k < n ==> (k in m <==> k in m') && (k in m ==> m[k].used == m'[k].used)
    ensures Unspent(m, maxOp, n) == Unspent(m', maxOp, n) && Calls(m, n) == Calls(m', n)
    decreases n
  {
    if n > 0 {
      SumsAgree(m, m', maxOp, n - 1);
    }
  }

  /** Taking call k out takes its share out of both sums. */
  lemma {:induction false} SumsSplit(m: map<OpId, Progress>, maxOp: nat, n: int, k: OpId)
    requires k in m && 0 <= k < n
    ensures Unspent(m, maxOp, n) == maxOp - m[k].used + Unspent(m - {k}, maxOp, n)
    ensures Calls(m, n) == 1 + Calls(m - {k}, n)
    decreases n
  {
    if k == n - 1 {
      SumsAgree(m, m - {k}, maxOp, k);
    } else {
      SumsSplit(m, maxOp, n - 1, k);
    }
  }

  lemma SumsUpdate(m: map<OpId, Progress>, maxOp: nat, n: int, k: OpId, v: Progress)
    requires k in m && 0 <= k < n
    ensures Unspent(m[k := v], maxOp, n) == Unspent(m, maxOp, n) + m[k].used - v.used
    ensures Calls(m[k := v], n) == Calls(m, n)
  {
    SumsSplit(m[k := v], maxOp, n, k);
    SumsSplit(m, maxOp, n, k);
    assert m[k := v] - {k} == m - {k};
  }

  lemma {:induction false} SumsBound(m: map<OpId, Progress>, maxOp: nat, n: int)
    requires forall k :: k in m ==> m[k].used <= maxOp
    ensures 0 <= Unspent(m, maxOp, n) <= Reserve(Calls(m, n), maxOp)
    decreases n
  {
    if n > 0 {
      SumsBound(m, maxOp, n - 1);
    }
  }

  /** How many running calls numbered below n are past the tests of log_write. */
  ghost function Passed(m: map<OpId, Progress>, n: int): nat
    decreases n
  {
    if n <= 0 then 0 else Passed(m, n - 1) + if n - 1 in m && m[n - 1].logging.Some? then 1 else 0
  }

  lemma {:induction false} PassedAgree(m: map<OpId, Progress>, m': map<OpId, Progress>, n: int)
    requires forall k :: 0 <= k < n ==> (k in m <==> k in m') && (k in m ==> m[k].logging == m'[k].logging)
    ensures Passed(m, n) == Passed(m', n)
    decreases n
  {
    if n > 0 {
      PassedAgree(m, m', n - 1);
    }
  }

  lemma {:induction false} PassedSplit(m: map<OpId, Progress>, n: int, k: OpId)
    requires k in m && 0 <= k < n
    ensures Passed(m, n) == Passed(m - {k}, n) + if m[k].logging.Some? then 1 else 0
    decreases n
  {
    if k == n - 1 {
      PassedAgree(m, m - {k}, k);
    } else {
      PassedSplit(m, n - 1, k);
    }
  }

  lemma PassedUpdate(m: map<OpId, Progress>, n: int, k: OpId, v: Progress)
    requires k in m && 0 <= k < n
    ensures Passed(m[k := v], n) + (if m[k].logging.Some? then 1 else 0)
         == Passed(m, n) + if v.logging.Some? then 1 else 0
  {
    PassedSplit(m[k := v], n, k);
    PassedSplit(m, n, k);
    assert m[k := v] - {k} == m - {k};
  }

  lemma {:induction false} PassedBound(m: map<OpId, Progress>, n: int)
    ensures Passed(m, n) <= Calls(m, n)
    decreases n
  {
    if n > 0 {
      PassedBound(m, n - 1);
    }
  }

  lemma {:induction false} NonePassed(n: int)
    ensures Passed(map[], n) == 0
    decreases n
  {
    if n > 0 {
      NonePassed(n - 1);
    }
  }

  lemma {:induction false} NoSums(maxOp: nat, n: int)
    ensures Unspent(map[], maxOp, n) == 0 && Calls(map[], n) == 0
    decreases n
  {
    if n > 0 {
      NoSums(maxOp, n - 1);
    }
  }

  lemma {:induction false} NoCalls(m: map<OpId, Progress>, n: int, k: OpId)
    requires Calls(m, n) == 0 && 0 <= k < n
    ensures k !in m
    decreases n
  {
    if k < n - 1 {
      NoCalls(m, n - 1, k);
    }
  }

  // ---------------------------------------------------------------- the invariant

  ghost predicate Committing(p: Phase)
  {
    p.WritingLog? || p.WritingHead? || p.Installing? || p.Finishing?
  }

  /** Logged blocks whose changes are not on their home blocks yet: pinned in the cache. */
  ghost function Pending(s: State): seq<int>
  {
    match s.phase
    case Idle => s.lh
    case WritingLog(_) => s.lh
    case WritingHead => s.lh
    case Installing(t) => if t <= |s.lh| then s.lh[t..] else []
    case _ => []
  }

  /** Counters and the in-memory header. */
  ghost predicate InvCounts(c: Config, s: State)
  {
    && s.outstanding == Calls(s.active, s.nextOp)
    && (s.committing <==> Committing(s.phase))
    && (!s.phase.Idle? ==> s.active == map[])
    && (s.phase.Finishing? ==> s.lh == [])
    && (s.phase.Booting? ==> s.lh == [])
    && ((s.phase.Booting? || s.phase.Recovering?) ==> s.cache == map[])
    && (!s.phase.Idle? && !s.phase.WritingLog? && !s.phase.WritingHead? ==> s.group == {})
    && |s.lh| < c.size
    && Distinct(s.lh)
    && (forall i :: 0 <= i < |s.lh| ==> s.lh[i] in c.homes)
  }

  /** Which call is where. */
  ghost predicate InvOps(s: State)
  {
    && (forall op :: op in s.active ==> 0 <= op < s.nextOp && op !in s.ended)
    && s.nextOp >= 0
    && (forall op :: op in s.ended ==> op < s.nextOp)
    && s.group <= s.ended && s.durable <= s.ended && s.group !! s.durable
    && (forall i :: 0 <= i < |s.hist| ==> s.hist[i].op < s.nextOp)
  }

  /** The buffer cache: who holds what, what is pinned, what matches the disk. */
  ghost predicate InvCache(c: Config, s: State)
  {
    && (forall b :: b in s.cache ==>
          && b in c.homes
          && (s.cache[b].touched ==> s.cache[b].busy.Some? && s.cache[b].busy.value.Call?)
          && (s.cache[b].busy.Some? && s.cache[b].busy.value.Call? ==> s.cache[b].busy.value.op in s.active)
          && (s.cache[b].dirty ==> b in Pending(s))
          && (!s.cache[b].dirty && !s.cache[b].touched && b in s.disk.home ==> s.cache[b].data == s.disk.home[b]))
    && (forall b :: b in Pending(s) ==> b in s.cache && s.cache[b].dirty)
  }

  /** Calls whose writes the cache shows. */
  ghost function Visible(s: State): set<OpId>
  {
    s.durable + s.group + s.active.Keys
  }

  ghost predicate InvView(c: Config, init: map<int, Block>, s: State)
  {
    && s.disk.home.Keys == c.homes
    && Expected(init, s, Visible(s)).Keys == c.homes
    && (!s.phase.Booting? && !s.phase.Recovering? ==>
          forall b :: b in c.homes ==> View(s, b) == Expected(init, s, Visible(s))[b])
  }

  /** The disk: recovering it now gives exactly the durable calls. */
  ghost predicate InvDisk(c: Config, init: map<int, Block>, s: State)
  {
    && LogFits(s.disk)
    && |s.disk.log| + 1 == c.size
    && Distinct(s.disk.head)
    && (forall i :: 0 <= i < |s.disk.head| ==> s.disk.head[i] in c.homes)
    && Recovered(s.disk) == Expected(init, s, s.durable)
    && (s.phase.Idle? || s.phase.Finishing? || s.phase.WritingLog? || s.phase.WritingHead? ==> s.disk.head == [])
    && (s.phase.WritingLog? ==> LogCopied(s, s.phase.tail))
    && (s.phase.WritingHead? ==> LogCopied(s, |s.lh|))
    && (s.phase.Installing? || s.phase.Recovering? ==>
          && s.disk.head == s.lh && s.phase.tail <= |s.lh|
          && (forall i :: 0 <= i < s.phase.tail ==> s.lh[i] in s.disk.home && s.disk.home[s.lh[i]] == s.disk.log[i]))
  }

  /** The first t log blocks hold what the cache shows for the first t logged blocks. */
  ghost predicate LogCopied(s: State, t: nat)
  {
    && t <= |s.lh| && t <= |s.disk.log|
    && forall i :: 0 <= i < t ==> s.disk.log[i] == View(s, s.lh[i])
  }

  /** No panic yet, and what the running calls may still log fits. */
  ghost predicate Roomy(c: Config, s: State)
  {
    && !s.panicked
    && (forall op :: op in s.active ==>
          && s.active[op].used <= c.maxOp
          && (s.active[op].logging.Some? ==> s.active[op].used < c.maxOp))
    && |s.lh| + Unspent(s.active, c.maxOp, s.nextOp) <= c.capacity
  }

  ghost predicate Inv(c: Config, init: map<int, Block>, s: State)
  {
    && InvCounts(c, s)
    && InvOps(s)
    && InvCache(c, s)
    && InvView(c, init, s)
    && InvDisk(c, init, s)
  }

  // ---------------------------------------------------------------- preservation

  lemma InvInit(c: Config, init: map<int, Block>, s: State)
    requires Init(c, init, s)
    ensures Inv(c, init, s)
  {
  }

  ghost predicate Begun(s: State, s': State)
  {
    s' == s.(outstanding := s.outstanding + 1,
             active := s.active[s.nextOp := Progress(0, None)],
             nextOp := s.nextOp + 1)
  }

  lemma BeginCounts(c: Config, s: State, s': State)
    requires InvCounts(c, s) && InvOps(s) && !s.committing && Begun(s, s') && s.phase.Idle?
    ensures InvCounts(c, s')
  {
    SumsAgree(s.active, s'.active, c.maxOp, s.nextOp);
  }

  lemma BeginView(c: Config, init: map<int, Block>, s: State, s': State)
    requires Inv(c, init, s) && s.phase.Idle? && Begun(s, s')
    ensures InvOps(s') && InvCache(c, s') && InvView(c, init, s')
  {
    hide Apply, Only, Replay;
    assert s'.active.Keys == s.active.Keys + {s.nextOp};
    OnlySame(s.hist, Visible(s), Visible(s'));
    assert Pending(s') == Pending(s);
    assert forall b :: b in c.homes ==> View(s', b) == View(s, b);
  }

  lemma InvBegin(c: Config, init: map<int, Block>, s: State, s': State)
    requires Inv(c, init, s) && BeginOp(c, s, s')
    ensures Inv(c, init, s')
  {
    BeginCounts(c, s, s');
    BeginView(c, init, s, s');
  }

  /** A step that leaves what bread returns alone only has to keep the cache in order. */
  lemma CacheOnly(c: Config, init: map<int, Block>, s: State, s': State)
    requires Inv(c, init, s) && Running(s)
    requires s' == s.(cache := s'.cache)
    requires InvCache(c, s')
    requires forall b :: b in c.homes ==> View(s', b) == View(s, b)
    ensures Inv(c, init, s')
  {
    var done := if s.phase.WritingLog? then s.phase.tail else if s.phase.WritingHead? then |s.lh| else 0;
    assert LogCopied(s', done) by {
      assert LogCopied(s, done);
      forall i | 0 <= i < done ensures View(s', s.lh[i]) == View(s, s.lh[i]) {
      }
    }
  }

  lemma InvBread(c: Config, init: map<int, Block>, s: State, s': State, b: int, who: Holder)
    requires Inv(c, init, s) && Bread(c, s, s', b, who)
    ensures Inv(c, init, s')
  {
    hide Apply, Only, Replay;
    assert Pending(s') == Pending(s);
    CacheOnly(c, init, s, s');
  }

  lemma InvBrelse(c: Config, init: map<int, Block>, s: State, s': State, b: int)
    requires Inv(c, init, s) && Brelse(s, s', b)
    ensures Inv(c, init, s')
  {
    assert Pending(s') == Pending(s);
    CacheOnly(c, init, s, s');
  }

  lemma InvEvict(c: Config, init: map<int, Block>, s: State, s': State, b: int)
    requires Inv(c, init, s) && Evict(s, s', b)
    ensures Inv(c, init, s')
  {
    assert Pending(s') == Pending(s);
    CacheOnly(c, init, s, s');
  }

  lemma ModifyView(c: Config, init: map<int, Block>, s: State, s': State, op: OpId, b: int, data: Block)
    requires InvView(c, init, s) && InvCache(c, s) && Modify(s, s', op, b, data)
    ensures InvView(c, init, s')
  {
  }

  lemma InvModify(c: Config, init: map<int, Block>, s: State, s': State, op: OpId, b: int, data: Block)
    requires Inv(c, init, s) && Modify(s, s', op, b, data)
    ensures Inv(c, init, s')
  {
    ModifyView(c, init, s, s', op, b, data);
    assert op !in s.durable;
    OnlyAppend(s.hist, Write(op, b, data), s.durable);
    assert Pending(s') == Pending(s);
  }

  lemma InvLogCheck(c: Config, init: map<int, Block>, s: State, s': State, op: OpId, b: int)
    requires Inv(c, init, s) && LogCheck(c, s, s', op, b)
    ensures Inv(c, init, s')
  {
    hide Apply, Only, Replay;
    SumsUpdate(s.active, c.maxOp, s.nextOp, op, s.active[op].(logging := Some(b)));
    assert s.active[op := s.active[op].(logging := Some(b))].Keys == s.active.Keys;
    assert forall x :: x in c.homes ==> View(s', x) == View(s, x);
  }

  lemma InvLogAppend(c: Config, init: map<int, Block>, s: State, s': State, op: OpId, b: int)
    requires Inv(c, init, s) && LogAppend(s, s', op, b) && |s.lh| + 1 < c.size
    ensures Inv(c, init, s')
  {
    hide Apply, Only, Replay;
    var v := Progress(s.active[op].used + 1, None);
    SumsUpdate(s.active, c.maxOp, s.nextOp, op, v);
    assert s.active[op := v].Keys == s.active.Keys;
    assert s.phase.Idle?;
    assert Pending(s) == s.lh && Pending(s') == s'.lh;
    assert forall x :: x in c.homes ==> View(s', x) == View(s, x);
  }

  lemma EndCounts(c: Config, s: State, s': State, op: OpId)
    requires InvCounts(c, s) && InvOps(s) && EndOp(s, s', op)
    ensures InvCounts(c, s')
  {
    SumsSplit(s.active, c.maxOp, s.nextOp, op);
    if s'.outstanding == 0 {
      forall k ensures k !in s'.active {
        if k in s'.active {
          NoCalls(s'.active, s.nextOp, k);
        }
      }
      assert s'.active == map[];
    }
  }

  lemma EndOps(c: Config, s: State, s': State, op: OpId)
    requires InvCounts(c, s) && InvOps(s) && EndOp(s, s', op)
    ensures InvOps(s') && Visible(s') == Visible(s)
  {
  }

  lemma EndCache(c: Config, init: map<int, Block>, s: State, s': State, op: OpId)
    requires Inv(c, init, s) && EndOp(s, s', op)
    ensures InvCache(c, s')
  {
    assert Pending(s') == Pending(s);
  }

  lemma InvEnd(c: Config, init: map<int, Block>, s: State, s': State, op: OpId)
    requires Inv(c, init, s) && EndOp(s, s', op)
    ensures Inv(c, init, s')
  {
    hide Apply, Only;
    EndCounts(c, s, s', op);
    EndOps(c, s, s', op);
    EndCache(c, init, s, s', op);
    assert InvView(c, init, s') by {
      assert forall x :: x in c.homes ==> View(s', x) == View(s, x);
    }
    if s'.phase.Finishing? {
      assert s'.durable == Visible(s');
      CleanCache(c, init, s');
    }
  }

  /** With nothing pending and no call running, the disk already shows everything. */
  lemma CleanCache(c: Config, init: map<int, Block>, s: State)
    requires InvCounts(c, s) && InvCache(c, s) && InvView(c, init, s)
    requires s.phase.Finishing?
    ensures s.disk.home == Expected(init, s, Visible(s))
  {
    var e := Expected(init, s, Visible(s));
    assert forall b :: b in c.homes ==> View(s, b) == s.disk.home[b];
    assert forall b :: b in c.homes ==> e[b] == s.disk.home[b];
    assert e.Keys == s.disk.home.Keys;
  }

  lemma LogCopiedNext(s: State, s': State)
    requires WriteLog(s, s') && |s.lh| <= |s.disk.log| && LogCopied(s, s.phase.tail)
    ensures LogCopied(s', if s.phase.tail < |s.lh| then s.phase.tail + 1 else s.phase.tail)
  {
  }

  lemma WriteLogDisk(c: Config, init: map<int, Block>, s: State, s': State)
    requires InvDisk(c, init, s) && WriteLog(s, s') && |s.lh| <= |s.disk.log|
    ensures InvDisk(c, init, s')
  {
    LogCopiedNext(s, s');
    assert s'.disk.home == s.disk.home && s'.hist == s.hist && s'.durable == s.durable;
    assert Recovered(s'.disk) == s.disk.home == Recovered(s.disk);
  }

  lemma InvWriteLog(c: Config, init: map<int, Block>, s: State, s': State)
    requires Inv(c, init, s) && WriteLog(s, s')
    ensures Inv(c, init, s')
  {
    hide Apply, Only, Replay;
    WriteLogDisk(c, init, s, s');
    assert Pending(s') == Pending(s);
    assert forall x :: x in c.homes ==> View(s', x) == View(s, x);
  }

  lemma WriteHeadDisk(c: Config, init: map<int, Block>, s: State)
    requires Inv(c, init, s) && s.phase.WritingHead?
    ensures |s.lh| <= |s.disk.log|
    ensures Recovered(s.disk.(head := s.lh)) == Expected(init, s, Visible(s))
  {
    RecoveredAt(s.disk.(head := s.lh));
    var r := Recovered(s.disk.(head := s.lh));
    var e := Expected(init, s, Visible(s));
    forall b ensures (b in r <==> b in e) && (b in e ==> r[b] == e[b]) {
      if b in s.lh {
        var i :| 0 <= i < |s.lh| && s.lh[i] == b;
      } else if b in c.homes {
        assert View(s, b) == s.disk.home[b];
      }
    }
  }

  lemma InvWriteHead(c: Config, init: map<int, Block>, s: State, s': State)
    requires Inv(c, init, s) && WriteHead(s, s')
    ensures Inv(c, init, s')
  {
    hide Apply, Only, Replay;
    assert Visible(s') == Visible(s) == s'.durable;
    WriteHeadDisk(c, init, s);
    assert InvCache(c, s') by { assert Pending(s') == Pending(s); }
    assert InvView(c, init, s') by {
      assert forall x :: x in c.homes ==> View(s', x) == View(s, x);
    }
  }

  lemma InstallDisk(c: Config, init: map<int, Block>, s: State, s': State)
    requires InvDisk(c, init, s) && Install(s, s')
    ensures InvDisk(c, init, s')
  {
    if s.phase.tail < |s.lh| {
      InstallKeeps(s.disk, s'.disk, s.phase.tail);
    } else {
      ReplayInstalled(s.disk);
      assert s'.disk.home == s.disk.home && s'.hist == s.hist && s'.durable == s.durable;
      assert Recovered(s'.disk) == s.disk.home;
    }
  }

  lemma InstallCache(c: Config, s: State, s': State)
    requires InvCache(c, s) && Distinct(s.lh) && Install(s, s')
    requires s.phase.tail < |s.lh| <= |s.disk.log| && s.lh[s.phase.tail] in c.homes
    ensures InvCache(c, s')
  {
  }

  lemma InstallEndCache(c: Config, s: State, s': State)
    requires InvCache(c, s) && Install(s, s') && s.phase.tail == |s.lh|
    ensures InvCache(c, s')
  {
  }

  lemma InstallSameView(c: Config, init: map<int, Block>, s: State, s': State)
    requires InvView(c, init, s) && Install(s, s')
    requires forall i :: 0 <= i < |s.lh| ==>
      i < |s.disk.log| && s.lh[i] in c.homes && View(s, s.lh[i]) == s.disk.log[i]
    ensures InvView(c, init, s')
  {
    hide Apply, Only;
    assert Visible(s') == Visible(s) && s'.hist == s.hist;
    assert forall x :: x in c.homes ==> View(s', x) == View(s, x);
  }

  lemma InvInstall(c: Config, init: map<int, Block>, s: State, s': State)
    requires Inv(c, init, s) && Install(s, s')
    ensures Inv(c, init, s')
  {
    InstallDisk(c, init, s, s');
    InstallCounts(c, s, s');
    if s.phase.tail < |s.lh| {
      InstallCache(c, s, s');
    } else {
      InstallEndCache(c, s, s');
    }
    InstallView(c, init, s);
    hide InvCounts, InvOps, InvCache, Apply, Only, Replay;
    InstallSameView(c, init, s, s');
  }

  lemma InstallCounts(c: Config, s: State, s': State)
    requires InvCounts(c, s) && InvOps(s) && Install(s, s') && |s.lh| <= |s.disk.log|
    ensures InvCounts(c, s') && InvOps(s')
  {
  }

  /** While installing, the log holds what the cache shows. */
  lemma InstallView(c: Config, init: map<int, Block>, s: State)
    requires Inv(c, init, s) && s.phase.Installing?
    ensures forall i :: 0 <= i < |s.lh| ==> s.lh[i] in c.homes && View(s, s.lh[i]) == s.disk.log[i]
  {
    assert Visible(s) == s.durable;
    RecoveredAt(s.disk);
    forall i | 0 <= i < |s.lh| ensures s.lh[i] in c.homes && View(s, s.lh[i]) == s.disk.log[i] {
      assert Recovered(s.disk)[s.lh[i]] == s.disk.log[i];
    }
  }

  lemma InvFinish(c: Config, init: map<int, Block>, s: State, s': State)
    requires Inv(c, init, s) && FinishCommit(s, s')
    ensures Inv(c, init, s')
  {
  }

  lemma InvCrash(c: Config, init: map<int, Block>, s: State, s': State)
    requires Inv(c, init, s) && Crash(s, s')
    ensures Inv(c, init, s')
  {
    hide Apply, Only, Replay;
    NoSums(c.maxOp, s.nextOp);
    assert Visible(s') == s.durable;
    RecoveredKeys(c, s.disk);
  }

  lemma RecoveredKeys(c: Config, d: Disk)
    requires LogFits(d) && Distinct(d.head) && d.home.Keys == c.homes
    requires forall i :: 0 <= i < |d.head| ==> d.head[i] in c.homes
    ensures Recovered(d).Keys == c.homes
  {
    RecoveredAt(d);
    forall b ensures b in Recovered(d) <==> b in c.homes {
      if b in d.head {
        var i :| 0 <= i < |d.head| && d.head[i] == b;
      }
    }
  }

  lemma InvReadHead(c: Config, init: map<int, Block>, s: State, s': State)
    requires Inv(c, init, s) && ReadHead(s, s')
    ensures Inv(c, init, s')
  {
    NoSums(c.maxOp, s.nextOp);
  }

  lemma RecoverDisk(c: Config, init: map<int, Block>, s: State, s': State)
    requires Inv(c, init, s) && Recover(s, s')
    ensures InvDisk(c, init, s')
  {
    if s.phase.tail < |s.lh| {
      InstallKeeps(s.disk, s'.disk, s.phase.tail);
    } else {
      ReplayInstalled(s.disk);
    }
  }

  lemma InvRecover(c: Config, init: map<int, Block>, s: State, s': State)
    requires Inv(c, init, s) && Recover(s, s')
    ensures Inv(c, init, s')
  {
    hide Apply, Only;
    RecoverDisk(c, init, s, s');
    assert Visible(s') == Visible(s) == s.durable;
    assert InvCounts(c, s') by { NoSums(c.maxOp, s.nextOp); }
    assert InvView(c, init, s');
  }

  /** A running call with budget left finds a free slot in the log, and itself counted. */
  lemma BudgetLeft(c: Config, s: State, op: OpId)
    requires InvCounts(c, s) && InvOps(s) && Roomy(c, s)
    requires op in s.active && s.active[op].used < c.maxOp
    ensures |s.lh| < c.capacity && s.outstanding >= 1
  {
    SumsSplit(s.active, c.maxOp, s.nextOp, op);
    SumsBound(s.active - {op}, c.maxOp, s.nextOp);
  }

  lemma RoomyBegin(c: Config, s: State, s': State)
    requires InvCounts(c, s) && InvOps(s) && Roomy(c, s) && BeginOp(c, s, s')
    ensures Roomy(c, s')
  {
    ReserveIsProduct(s.outstanding + 1, c.maxOp);
    SumsAgree(s.active, s'.active, c.maxOp, s.nextOp);
    SumsBound(s.active, c.maxOp, s.nextOp);
  }

  lemma RoomyLogCheck(c: Config, s: State, s': State, op: OpId, b: int)
    requires c.size > c.capacity && c.budget <= c.maxOp
    requires InvCounts(c, s) && InvOps(s) && Roomy(c, s) && LogCheck(c, s, s', op, b)
    ensures Roomy(c, s')
  {
    BudgetLeft(c, s, op);
    SumsUpdate(s.active, c.maxOp, s.nextOp, op, s.active[op].(logging := Some(b)));
  }

  lemma RoomyLogAppend(c: Config, s: State, s': State, op: OpId, b: int)
    requires InvCounts(c, s) && InvOps(s) && Roomy(c, s) && LogAppend(s, s', op, b)
    ensures Roomy(c, s')
  {
    BudgetLeft(c, s, op);
    SumsUpdate(s.active, c.maxOp, s.nextOp, op, Progress(s.active[op].used + 1, None));
  }

  lemma RoomyEnd(c: Config, s: State, s': State, op: OpId)
    requires InvCounts(c, s) && InvOps(s) && Roomy(c, s) && EndOp(s, s', op)
    ensures Roomy(c, s')
  {
    SumsSplit(s.active, c.maxOp, s.nextOp, op);
  }

  lemma RoomyNext(c: Config, init: map<int, Block>, s: State, s': State, step: Step)
    requires c.size > c.capacity && c.budget <= c.maxOp
    requires Inv(c, init, s) && Roomy(c, s) && |s.disk.head| <= c.capacity && Next(c, s, s', step)
    ensures Roomy(c, s') && |s'.disk.head| <= c.capacity
  {
    hide InvView, InvCache, Recovered, Apply, Only;
    match step
    case StBegin => RoomyBegin(c, s, s');
    case StLogCheck(op, b) => RoomyLogCheck(c, s, s', op, b);
    case StLogAppend(op, b) => RoomyLogAppend(c, s, s', op, b);
    case StEnd(op) => RoomyEnd(c, s, s', op);
    case _ => NoSums(c.maxOp, s.nextOp);
  }

  /** With more blocks than calls beyond LOGSIZE, calls that are past the test together still fit. */
  ghost predicate Spare(c: Config, s: State)
  {
    |s.lh| + Passed(s.active, s.nextOp) < c.size && s.outstanding <= c.size - c.capacity
  }

  lemma SpareBegin(c: Config, s: State, s': State)
    requires InvCounts(c, s) && InvOps(s) && Spare(c, s) && BeginOp(c, s, s')
    requires c.size > c.capacity && c.capacity < (c.size - c.capacity + 1) * c.maxOp
    ensures Spare(c, s')
  {
    Fewer(s.outstanding + 1, c.size - c.capacity + 1, c.maxOp);
    PassedAgree(s.active, s'.active, s.nextOp);
  }

  lemma Fewer(a: int, b: int, k: nat)
    requires a * k < b * k
    ensures a < b
  {
  }

  lemma SpareLogCheck(c: Config, s: State, s': State, op: OpId, b: int)
    requires InvCounts(c, s) && InvOps(s) && Spare(c, s) && LogCheck(c, s, s', op, b)
    ensures Spare(c, s')
  {
    if !s'.panicked {
      var v := s.active[op].(logging := Some(b));
      SumsUpdate(s.active, c.maxOp, s.nextOp, op, v);
      PassedBound(s'.active, s.nextOp);
    }
  }

  lemma SpareLogAppend(c: Config, s: State, s': State, op: OpId, b: int)
    requires InvCounts(c, s) && InvOps(s) && Spare(c, s) && LogAppend(s, s', op, b)
    ensures Spare(c, s')
  {
    PassedUpdate(s.active, s.nextOp, op, Progress(s.active[op].used + 1, None));
  }

  lemma SpareEnd(c: Config, s: State, s': State, op: OpId)
    requires InvCounts(c, s) && InvOps(s) && Spare(c, s) && EndOp(s, s', op)
    ensures Spare(c, s')
  {
    PassedSplit(s.active, s.nextOp, op);
  }

  lemma SpareNext(c: Config, init: map<int, Block>, s: State, s': State, step: Step)
    requires c.size > c.capacity && c.capacity < (c.size - c.capacity + 1) * c.maxOp
    requires Inv(c, init, s) && Spare(c, s) && Next(c, s, s', step)
    ensures Spare(c, s')
  {
    hide InvView, InvCache, Recovered, Apply, Only;
    match step
    case StBegin => SpareBegin(c, s, s');
    case StLogCheck(op, b) => SpareLogCheck(c, s, s', op, b);
    case StLogAppend(op, b) => SpareLogAppend(c, s, s', op, b);
    case StEnd(op) => SpareEnd(c, s, s', op);
    case _ => NonePassed(s.nextOp);
  }

  /** What keeps the list within the log area: reservations, no room at all, or spare blocks. */
  ghost predicate InvRoom(c: Config, s: State)
  {
    if c.size > c.capacity && c.budget <= c.maxOp then Roomy(c, s) && |s.disk.head| <= c.capacity
    else if c.size == 1 then forall op :: op in s.active ==> s.active[op].logging.None?
    else Spare(c, s)
  }

  /** A call past the tests of log_write finds a block of the log area. */
  lemma RoomForOne(c: Config, s: State, op: OpId)
    requires Sound(c) && InvCounts(c, s) && InvOps(s) && InvRoom(c, s)
    requires op in s.active && s.active[op].logging.Some?
    ensures |s.lh| + 1 < c.size
  {
    if c.size > c.capacity && c.budget <= c.maxOp {
      BudgetLeft(c, s, op);
    } else {
      PassedSplit(s.active, s.nextOp, op);
    }
  }

  lemma RoomInit(c: Config, init: map<int, Block>, s: State)
    requires Sound(c) && Init(c, init, s)
    ensures InvRoom(c, s)
  {
    NoSums(c.maxOp, s.nextOp);
    NonePassed(s.nextOp);
  }

  lemma RoomNext(c: Config, init: map<int, Block>, s: State, s': State, step: Step)
    requires Sound(c) && Inv(c, init, s) && InvRoom(c, s) && Next(c, s, s', step)
    ensures InvRoom(c, s')
  {
    if c.size > c.capacity && c.budget <= c.maxOp {
      RoomyNext(c, init, s, s', step);
    } else if c.size == 1 {
      NoneLogging(c, s, s', step);
    } else {
      SpareNext(c, init, s, s', step);
    }
  }

  lemma NoneLogging(c: Config, s: State, s': State, step: Step)
    requires c.size == 1 && Next(c, s, s', step)
    requires forall op :: op in s.active ==> s.active[op].logging.None?
    ensures forall op :: op in s'.active ==> s'.active[op].logging.None?
  {
  }

  /** Every step keeps the invariant. */
  lemma InvNext(c: Config, init: map<int, Block>, s: State, s': State, step: Step)
    requires Sound(c)
    requires Inv(c, init, s) && InvRoom(c, s) && Next(c, s, s', step)
    ensures Inv(c, init, s') && InvRoom(c, s')
  {
    hide InvRoom, Roomy, Spare;
    RoomNext(c, init, s, s', step);
    match step
    case StBegin => InvBegin(c, init, s, s');
    case StBread(b, who) => InvBread(c, init, s, s', b, who);
    case StBrelse(b) => InvBrelse(c, init, s, s', b);
    case StEvict(b) => InvEvict(c, init, s, s', b);
    case StModify(op, b, data) => InvModify(c, init, s, s', op, b, data);
    case StLogCheck(op, b) => InvLogCheck(c, init, s, s', op, b);
    case StLogAppend(op, b) =>
      RoomForOne(c, s, op);
      InvLogAppend(c, init, s, s', op, b);
    case StEnd(op) => InvEnd(c, init, s, s', op);
    case StWriteLog => InvWriteLog(c, init, s, s');
    case StWriteHead => InvWriteHead(c, init, s, s');
    case StInstall => InvInstall(c, init, s, s');
    case StFinish => InvFinish(c, init, s, s');
    case StCrash => InvCrash(c, init, s, s');
    case StReadHead => InvReadHead(c, init, s, s');
    case StRecover => InvRecover(c, init, s, s');
  }

  lemma {:induction false} InvRun(c: Config, init: map<int, Block>, run: seq<State>, steps: seq<Step>, i: nat)
    requires Sound(c)
    requires IsRun(c, init, run, steps) && i < |run|
    ensures Inv(c, init, run[i]) && InvRoom(c, run[i])
  {
    hide Inv, InvRoom, Next, Init;
    if i == 0 {
      InvInit(c, init, run[0]);
      RoomInit(c, init, run[0]);
    } else {
      InvRun(c, init, run, steps, i - 1);
      InvNext(c, init, run[i - 1], run[i], steps[i - 1]);
    }
  }

  // ---------------------------------------------------------------- what every run keeps

  /**
  Crash at any state of any run: recovery leaves exactly the writes of the durable
  calls, in the order they were made.  So each call's writes are all there or all
  missing, and a call that is there had reached end_op.
  */
  lemma AtomicRecovery(c: Config, init: map<int, Block>, run: seq<State>, steps: seq<Step>, i: nat)
    requires Sound(c)
    requires IsRun(c, init, run, steps) && i < |run|
    ensures LogFits(run[i].disk)
    ensures Recovered(run[i].disk) == Apply(init, Only(run[i].hist, run[i].durable))
    ensures run[i].durable <= run[i].ended
    ensures forall op :: op in run[i].active ==> op !in run[i].ended
  {
    InvRun(c, init, run, steps, i);
  }

  /**
  What recovery would leave changes at one kind of step only, the header write that
  commits a group; it then takes in every call of the group at once.
  */
  lemma CommitPoint(c: Config, init: map<int, Block>, run: seq<State>, steps: seq<Step>, i: nat)
    requires Sound(c)
    requires IsRun(c, init, run, steps) && i < |steps|
    ensures LogFits(run[i].disk) && LogFits(run[i + 1].disk)
    ensures steps[i] != StWriteHead ==> Recovered(run[i + 1].disk) == Recovered(run[i].disk)
    ensures steps[i] == StWriteHead ==>
      && run[i + 1].durable == run[i].durable + run[i].group
      && forall b :: b in c.homes ==>
           b in Recovered(run[i + 1].disk) && Recovered(run[i + 1].disk)[b] == View(run[i], b)
    ensures run[i].durable <= run[i + 1].durable && run[i].hist <= run[i + 1].hist
  {
    InvRun(c, init, run, steps, i);
    InvRun(c, init, run, steps, i + 1);
    DiskOrHistory(c, run[i], run[i + 1], steps[i]);
    if steps[i] == StWriteHead {
      WriteHeadDisk(c, init, run[i]);
    } else {
      QuietStep(c, init, run[i], run[i + 1], steps[i]);
    }
  }

  /** No step touches both the disk and the history, the header write apart. */
  lemma DiskOrHistory(c: Config, s: State, s': State, step: Step)
    requires Next(c, s, s', step)
    ensures s.durable <= s'.durable && s.hist <= s'.hist
    ensures step == StWriteHead || s'.disk == s.disk || (s'.hist == s.hist && s'.durable == s.durable)
  {
  }

  lemma QuietStep(c: Config, init: map<int, Block>, s: State, s': State, step: Step)
    requires InvDisk(c, init, s) && InvDisk(c, init, s') && Next(c, s, s', step) && step != StWriteHead
    ensures Recovered(s'.disk) == Recovered(s.disk)
  {
    DiskOrHistory(c, s, s', step);
  }

  /** A finished recovery has put the durable calls, and nothing else, on the home blocks. */
  lemma RecoveryDone(c: Config, init: map<int, Block>, run: seq<State>, steps: seq<Step>, i: nat)
    requires Sound(c)
    requires IsRun(c, init, run, steps) && i < |steps|
    requires steps[i] == StRecover && run[i + 1].phase.Idle?
    ensures run[i + 1].disk.head == []
    ensures run[i + 1].disk.home == Apply(init, Only(run[i + 1].hist, run[i + 1].durable))
    ensures run[i + 1].durable == run[i].durable
  {
    InvRun(c, init, run, steps, i + 1);
  }

  /** bread shows the writes of all calls that are durable, finished or still running. */
  lemma ReadersSeeLatest(c: Config, init: map<int, Block>, run: seq<State>, steps: seq<Step>, i: nat, b: int)
    requires Sound(c)
    requires IsRun(c, init, run, steps) && i < |run|
    requires Running(run[i]) && b in c.homes
    ensures b in run[i].cache || b in run[i].disk.home
    ensures var now := Apply(init, Only(run[i].hist, run[i].durable + run[i].group + run[i].active.Keys));
            b in now && View(run[i], b) == now[b]
  {
    InvRun(c, init, run, steps, i);
  }

  /** Calls that keep to MAXOPBLOCKS never overcommit the log or make it panic, and commits run alone. */
  lemma LogSpace(c: Config, init: map<int, Block>, run: seq<State>, steps: seq<Step>, i: nat)
    requires c.size > c.capacity && c.budget <= c.maxOp
    requires IsRun(c, init, run, steps) && i < |run|
    ensures |run[i].lh| + Unspent(run[i].active, c.maxOp, run[i].nextOp) <= c.capacity
    ensures 0 <= Unspent(run[i].active, c.maxOp, run[i].nextOp)
    ensures Distinct(run[i].lh)
    ensures run[i].committing ==> run[i].outstanding == 0
    ensures !run[i].panicked
  {
    InvRun(c, init, run, steps, i);
    SumsBound(run[i].active, c.maxOp, run[i].nextOp);
    NoSums(c.maxOp, run[i].nextOp);
  }
}
