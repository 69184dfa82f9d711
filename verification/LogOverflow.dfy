/**
Exactly when recovery is atomic.  log_write tests lh.n before it takes log.lock, so several
calls can pass the test on one free slot.  In a log area that is too small for that, the list
outgrows the area, and write_log goes on into the file system behind it.
*/
module LogOverflow {
  import opened Blocks
  import opened LogProtocol
  import opened LogProof
  import opened LogPanic
  import opened Seqs

  /** Crashing now leaves, after recovery, the writes of some set of calls that had reached end_op. */
  ghost predicate AtomicAt(init: map<int, Block>, s: State)
  {
    exists ops: set<OpId> :: ops <= s.ended && Recovered(s.disk) == Apply(init, Only(s.hist, ops))
  }

  ghost predicate Atomic(c: Config, init: map<int, Block>)
  {
    forall run: seq<State>, steps: seq<Step>, i ::
      IsRun(c, init, run, steps) && 0 <= i < |run| ==> AtomicAt(init, run[i])
  }

  /** The calls that begin_op admits can overfill the log area. */
  predicate Tight(c: Config)
  {
    2 <= c.size && (c.size <= c.capacity || (c.size <= c.capacity + 2 && c.maxOp < c.budget))
  }

  /** How many blocks are logged when the race starts; the log then has one free slot or two. */
  function Before(c: Config): int
  {
    if c.size <= c.capacity then c.size - 2 else c.capacity - 1
  }

  /** The log is all but full; x and y are the last two of the blocks to go into it. */
  ghost predicate Ready(c: Config, init: map<int, Block>, bs: seq<int>, s: State)
  {
    && Params(c) && Tight(c) && |bs| == c.size && init.Keys == c.homes
    && Distinct(bs) && (forall i :: 0 <= i < |bs| ==> bs[i] in c.homes)
    && Filled(c, init, bs, Before(c), s)
  }

  /** Call 2 has changed y; calls 1 and 2 have both passed log_write's test, and the list holds the first k. */
  ghost predicate Raced(c: Config, init: map<int, Block>, bs: seq<int>, data: Block, k: nat, s: State)
  {
    && 2 <= c.size == |bs| && k <= c.size - 2
    && var x, y := bs[c.size - 2], bs[c.size - 1];
    && s.phase == Idle && !s.committing && !s.panicked && s.outstanding == 3
    && s.lh == bs[..k]
    && s.disk == Disk([], s.disk.log, init, c.after) && |s.disk.log| + 1 == c.size
    && (forall op :: 0 <= op < 3 ==> op in s.active)
    && s.active[0].logging.None? && (k == Before(c) ==> s.active[0].used <= c.maxOp)
    && s.active[1].logging == Some(x) && s.active[2].logging == Some(y)
    && s.hist == [Write(2, y, data)]
    && x in s.cache && s.cache[x].busy == Some(Call(1))
    && y in s.cache && s.cache[y].busy == Some(Call(2)) && s.cache[y].data == data
    && (forall b :: b in s.cache ==> b in bs[..k] || b == x || b == y)
    && (forall b :: b in s.cache ==> b == x || b == y || s.cache[b].busy.None?)
  }

  /** Calls 1 and 2 hold x and y, and call 2 has changed y. */
  ghost predicate Held(c: Config, init: map<int, Block>, bs: seq<int>, data: Block, s: State)
  {
    && 2 <= c.size == |bs| && 0 <= Before(c) <= c.size - 2
    && var x, y := bs[c.size - 2], bs[c.size - 1];
    && s.phase == Idle && !s.committing && !s.panicked && s.outstanding == 3
    && s.lh == bs[..Before(c)]
    && s.disk == Disk([], s.disk.log, init, c.after) && |s.disk.log| + 1 == c.size
    && (forall op :: 0 <= op < 3 ==> op in s.active && s.active[op] == Progress(Share(c, op, Before(c)), None))
    && s.hist == [Write(2, y, data)]
    && x in s.cache && s.cache[x].busy == Some(Call(1))
    && y in s.cache && s.cache[y].busy == Some(Call(2)) && s.cache[y].data == data
    && (forall b :: b in s.cache ==> b in bs[..Before(c)] || b == x || b == y)
    && (forall b :: b in s.cache ==> b == x || b == y || s.cache[b].busy.None?)
  }

  lemma HoldSteps(c: Config, init: map<int, Block>, bs: seq<int>, data: Block, s: State)
    returns (run: seq<State>, steps: seq<Step>)
    requires Ready(c, init, bs, s)
    ensures Joined(c, run, steps) && run[0] == s && Held(c, init, bs, data, run[|run| - 1])
  {
    hide Share, Writer;
    var x, y := bs[c.size - 2], bs[c.size - 1];
    assert x !in bs[..Before(c)] && y !in bs[..Before(c)];
    var s1 := Reading(s, x, 1);
    var s2 := Reading(s1, y, 2);
    var s3 := s2.(cache := s2.cache[y := s2.cache[y].(data := data, touched := true)],
                  hist := s2.hist + [Write(2, y, data)]);
    assert Next(c, s, s1, StBread(x, Call(1)));
    assert Next(c, s1, s2, StBread(y, Call(2)));
    assert Next(c, s2, s3, StModify(2, y, data));
    run, steps := [s, s1, s2, s3], [StBread(x, Call(1)), StBread(y, Call(2)), StModify(2, y, data)];
  }

  lemma RaceSteps(c: Config, init: map<int, Block>, bs: seq<int>, data: Block, s: State)
    returns (run: seq<State>, steps: seq<Step>)
    requires Params(c) && Tight(c) && Held(c, init, bs, data, s) && Distinct(bs)
    ensures Joined(c, run, steps) && run[0] == s && Raced(c, init, bs, data, Before(c), run[|run| - 1])
  {
    hide Share, Writer;
    var x, y := bs[c.size - 2], bs[c.size - 1];
    Shares(c, Before(c));
    var s1 := Passing(s, x, 1);
    var s2 := Passing(s1, y, 2);
    assert Next(c, s, s1, StLogCheck(1, x));
    assert Next(c, s1, s2, StLogCheck(2, y));
    run, steps := [s, s1, s2], [StLogCheck(1, x), StLogCheck(2, y)];
  }

  /** With two slots free, call 0 logs one more block while calls 1 and 2 are past the test. */
  lemma ThirdSteps(c: Config, init: map<int, Block>, bs: seq<int>, data: Block, s: State)
    returns (run: seq<State>, steps: seq<Step>)
    requires Params(c) && Tight(c) && c.size == c.capacity + 2 && Distinct(bs) && init.Keys == c.homes
    requires Raced(c, init, bs, data, Before(c), s) && forall i :: 0 <= i < |bs| ==> bs[i] in c.homes
    ensures Joined(c, run, steps) && run[0] == s && Raced(c, init, bs, data, c.size - 2, run[|run| - 1])
  {
    hide Share, Writer, Joined;
    var k := Before(c);
    var z := bs[k];
    Shares(c, k);
    assert z !in bs[..k] && bs[..k + 1] == bs[..k] + [z];
    assert z !in s.cache;
    LogOneSteps(c, s, z, 0);
    var s1 := Reading(s, z, 0);
    var s2 := Passing(s1, z, 0);
    var s3 := Logging(s2, z, 0);
    run := [s, s1, s2, s3, Releasing(s3, z)];
    steps := [StBread(z, Call(0)), StLogCheck(0, z), StLogAppend(0, z), StBrelse(z)];
  }

  /** Both blocks are in the log, and still held. */
  ghost predicate Appended(c: Config, init: map<int, Block>, bs: seq<int>, data: Block, s: State)
  {
    && 2 <= c.size == |bs|
    && var x, y := bs[c.size - 2], bs[c.size - 1];
    && s.phase == Idle && !s.committing && !s.panicked && s.outstanding == 3
    && s.lh == bs
    && s.disk == Disk([], s.disk.log, init, c.after) && |s.disk.log| + 1 == c.size
    && (forall op :: 0 <= op < 3 ==> op in s.active)
    && s.hist == [Write(2, y, data)]
    && x in s.cache && s.cache[x].busy.Some? && !s.cache[x].touched
    && y in s.cache && s.cache[y].busy.Some? && !s.cache[y].touched && s.cache[y].data == data
    && (forall b :: b in s.cache ==> b in bs && (b == x || b == y || s.cache[b].busy.None?))
  }

  lemma AppendSteps(c: Config, init: map<int, Block>, bs: seq<int>, data: Block, s: State)
    returns (run: seq<State>, steps: seq<Step>)
    requires c.size >= 2 && Raced(c, init, bs, data, c.size - 2, s) && Distinct(bs)
    ensures Joined(c, run, steps) && run[0] == s && Appended(c, init, bs, data, run[|run| - 1])
  {
    var x, y := bs[c.size - 2], bs[c.size - 1];
    assert x !in bs[..c.size - 2] && y !in bs[..c.size - 2];
    assert bs == bs[..c.size - 2] + [x] + [y];
    var s1 := Logging(s, x, 1);
    var s2 := Logging(s1, y, 2);
    assert Next(c, s, s1, StLogAppend(1, x));
    assert Next(c, s1, s2, StLogAppend(2, y));
    run, steps := [s, s1, s2], [StLogAppend(1, x), StLogAppend(2, y)];
  }

  /** Both blocks are in the log, which has room for one of them. */
  ghost predicate Overfull(c: Config, init: map<int, Block>, bs: seq<int>, data: Block, s: State)
  {
    && 2 <= c.size == |bs|
    && s.phase == Idle && !s.committing && !s.panicked && s.outstanding == 3
    && s.lh == bs
    && s.disk == Disk([], s.disk.log, init, c.after) && |s.disk.log| + 1 == c.size
    && (forall op :: 0 <= op < 3 ==> op in s.active)
    && s.hist == [Write(2, bs[c.size - 1], data)]
    && (forall b :: b in s.cache ==> b in bs && s.cache[b].busy.None?)
    && bs[c.size - 1] in s.cache && s.cache[bs[c.size - 1]].data == data
  }

  lemma ReleaseSteps(c: Config, init: map<int, Block>, bs: seq<int>, data: Block, s: State)
    returns (run: seq<State>, steps: seq<Step>)
    requires Appended(c, init, bs, data, s) && Distinct(bs)
    ensures Joined(c, run, steps) && run[0] == s && Overfull(c, init, bs, data, run[|run| - 1])
  {
    var x, y := bs[c.size - 2], bs[c.size - 1];
    var s1 := Releasing(s, x);
    var s2 := Releasing(s1, y);
    assert Next(c, s, s1, StBrelse(x));
    assert Next(c, s1, s2, StBrelse(y));
    run, steps := [s, s1, s2], [StBrelse(x), StBrelse(y)];
  }

  /** The committing call has copied the first t of the blocks. */
  ghost predicate Copying(c: Config, init: map<int, Block>, bs: seq<int>, data: Block, t: nat, s: State)
  {
    && 2 <= c.size == |bs|
    && s.phase == WritingLog(t) && !s.panicked
    && s.lh == bs
    && s.disk == Disk([], s.disk.log, init, c.after) && |s.disk.log| + 1 == c.size
    && s.hist == [Write(2, bs[c.size - 1], data)]
    && (forall b :: b in s.cache ==> b in bs && s.cache[b].busy.None?)
    && bs[c.size - 1] in s.cache && s.cache[bs[c.size - 1]].data == data
  }

  ghost function Ending(s: State, op: OpId): State
    requires s.outstanding >= 1
  {
    s.(outstanding := s.outstanding - 1, active := s.active - {op}, group := s.group + {op}, ended := s.ended + {op})
  }

  lemma EndSteps(c: Config, init: map<int, Block>, bs: seq<int>, data: Block, s: State)
    returns (run: seq<State>, steps: seq<Step>)
    requires Overfull(c, init, bs, data, s)
    ensures Joined(c, run, steps) && run[0] == s && Copying(c, init, bs, data, 0, run[|run| - 1])
  {
    var s1 := Ending(s, 0);
    var s2 := Ending(s1, 1);
    var s3 := Ending(s2, 2).(committing := true, phase := WritingLog(0));
    assert Next(c, s, s1, StEnd(0));
    assert Next(c, s1, s2, StEnd(1));
    assert Next(c, s2, s3, StEnd(2));
    run, steps := [s, s1, s2, s3], [StEnd(0), StEnd(1), StEnd(2)];
  }

  lemma {:induction false} CopySteps(c: Config, init: map<int, Block>, bs: seq<int>, data: Block, t: nat, s: State)
    returns (run: seq<State>, steps: seq<Step>)
    requires Copying(c, init, bs, data, 0, s) && t < c.size
    requires forall i :: 0 <= i < |bs| ==> bs[i] in init
    ensures Joined(c, run, steps) && run[0] == s && Copying(c, init, bs, data, t, run[|run| - 1])
  {
    if t == 0 {
      run, steps := [s], [];
    } else {
      run, steps := CopySteps(c, init, bs, data, t - 1, s);
      var s0 := run[|run| - 1];
      var s1 := s0.(disk := s0.disk.(log := s0.disk.log[t - 1 := View(s0, bs[t - 1])]), phase := WritingLog(t));
      assert Next(c, s0, s1, StWriteLog);
      run, steps := run + [s1], steps + [StWriteLog];
    }
  }

  /** The write past the log area: the block behind it holds call 2's bytes for another block. */
  lemma LastCopy(c: Config, init: map<int, Block>, bs: seq<int>, data: Block, s: State) returns (s': State)
    requires c.size > 0 && Copying(c, init, bs, data, c.size - 1, s) && c.after in init && c.after !in bs
    ensures Joined(c, [s, s'], [StWriteLog]) && s'.hist == [Write(2, bs[c.size - 1], data)]
    ensures s'.disk.head == [] && s'.disk.home == init[c.after := data]
  {
    s' := Bwrite(s, c.after, data).(phase := WritingLog(c.size));
    assert Next(c, s, s', StWriteLog);
  }

  /**
  The run: three calls log all but the last blocks; two of them pass the test at once, and if
  that is not enough the third logs one more; the commit overwrites the first block behind the log
  area.  In a log area of up to LOGSIZE blocks every call keeps to MAXOPBLOCKS.
  */
  lemma Overflow(c: Config, init: map<int, Block>, bs: seq<int>, log: seq<Block>, data: Block)
    returns (run: seq<State>, steps: seq<Step>, s: State)
    requires Params(c) && Fillers(c, bs) && init.Keys == c.homes && |log| + 1 == c.size
    requires Tight(c) && c.after in c.homes && c.after !in bs
    ensures RunTo(c, init, run, steps, s)
    ensures s.hist == [Write(2, bs[c.size - 1], data)]
    ensures Recovered(s.disk) == init[c.after := data]
  {
    hide Next, RunTo, Joined, Filled, Held, Raced, Appended, Overfull, Copying;
    var lh := bs[..c.size];
    run, steps, s := Fill(c, init, bs, log, Before(c));
    FilledPrefix(c, init, bs, lh, Before(c), s);
    var more, moreSteps := HoldSteps(c, init, lh, data, s);
    run, steps, s := Append(c, init, run, steps, s, more, moreSteps);
    more, moreSteps := RaceSteps(c, init, lh, data, s);
    run, steps, s := Append(c, init, run, steps, s, more, moreSteps);
    if c.size == c.capacity + 2 {
      more, moreSteps := ThirdSteps(c, init, lh, data, s);
      run, steps, s := Append(c, init, run, steps, s, more, moreSteps);
    }
    more, moreSteps := AppendSteps(c, init, lh, data, s);
    run, steps, s := Append(c, init, run, steps, s, more, moreSteps);
    more, moreSteps := ReleaseSteps(c, init, lh, data, s);
    run, steps, s := Append(c, init, run, steps, s, more, moreSteps);
    more, moreSteps := EndSteps(c, init, lh, data, s);
    run, steps, s := Append(c, init, run, steps, s, more, moreSteps);
    more, moreSteps := CopySteps(c, init, lh, data, c.size - 1, s);
    run, steps, s := Append(c, init, run, steps, s, more, moreSteps);
    var s' := LastCopy(c, init, lh, data, s);
    run, steps, s := Append(c, init, run, steps, s, [s, s'], [StWriteLog]);
  }

  lemma Append(c: Config, init: map<int, Block>, run0: seq<State>, steps0: seq<Step>, s0: State,
               more: seq<State>, moreSteps: seq<Step>)
    returns (run: seq<State>, steps: seq<Step>, s: State)
    requires RunTo(c, init, run0, steps0, s0) && Joined(c, more, moreSteps) && more[0] == s0
    ensures RunTo(c, init, run, steps, s) && s == more[|more| - 1]
  {
    Extend(c, init, run0, steps0, s0, more, moreSteps);
    run, steps, s := run0 + more[1..], steps0 + moreSteps, more[|more| - 1];
  }

  lemma FilledPrefix(c: Config, init: map<int, Block>, bs: seq<int>, lh: seq<int>, j: nat, s: State)
    requires j <= |lh| <= |bs| && lh == bs[..|lh|] && Filled(c, init, bs, j, s)
    ensures Filled(c, init, lh, j, s)
  {
    assert lh[..j] == bs[..j];
  }

  /** A block that differs from b. */
  function Unlike(b: Block): (d: Block)
    ensures |d| == BSIZE && d != b
  {
    if b == ZeroBlock then
      assert b[0] == 0 && ZeroBlock[0 := 1][0] == 1;
      ZeroBlock[0 := 1]
    else ZeroBlock
  }

  /** No set of calls explains what that run leaves on the disk. */
  lemma NotAtomic(c: Config, init: map<int, Block>, bs: seq<int>, log: seq<Block>)
    requires Params(c) && Fillers(c, bs) && init.Keys == c.homes && |log| + 1 == c.size
    requires Tight(c) && c.after in c.homes && c.after !in bs
    ensures !Atomic(c, init)
  {
    var data := Unlike(init[c.after]);
    var run, steps, s := Overflow(c, init, bs, log, data);
    var w := Write(2, bs[c.size - 1], data);
    forall ops: set<OpId> ensures Recovered(s.disk) != Apply(init, Only(s.hist, ops)) {
      OneWrite(init, w, ops);
      assert w.block != c.after;
      assert Apply(init, Only(s.hist, ops))[c.after] == init[c.after];
    }
    assert !AtomicAt(init, run[|run| - 1]);
  }

  lemma OneWrite(init: map<int, Block>, w: Write, ops: set<OpId>)
    ensures Apply(init, Only([w], ops)) == if w.op in ops then init[w.block := w.data] else init
  {
    assert [w][..0] == [];
    assert Only([w], ops) == if w.op in ops then [w] else [];
  }

  lemma SoundOrTight(c: Config)
    requires Params(c)
    ensures Sound(c) <==> c.size == 1 || c.size > c.capacity + 2 || (c.size > c.capacity && c.budget <= c.maxOp)
    ensures Tight(c) <==> !Sound(c)
  {
    var k := c.size - c.capacity + 1;
    if k > 3 {
      assert k * c.maxOp >= 4 * c.maxOp;
    } else if k >= 0 {
      assert k * c.maxOp <= 3 * c.maxOp;
    }
  }

  /**
  Recovery is atomic in every run exactly when the log area is its header alone, or has room for
  LOGSIZE blocks and for two latecomers, or for LOGSIZE blocks and calls keep to MAXOPBLOCKS.
  */
  lemma AtomicIff(c: Config, init: map<int, Block>, bs: seq<int>, log: seq<Block>)
    requires Params(c) && Fillers(c, bs) && init.Keys == c.homes && |log| + 1 == c.size
    requires c.after in c.homes && c.after !in bs
    ensures Atomic(c, init) <==>
      c.size == 1 || c.size > c.capacity + 2 || (c.size > c.capacity && c.budget <= c.maxOp)
  {
    hide Tight, Sound;
    SoundOrTight(c);
    if Sound(c) {
      forall run: seq<State>, steps: seq<Step>, i | IsRun(c, init, run, steps) && 0 <= i < |run|
        ensures AtomicAt(init, run[i])
      {
        AtomicRecovery(c, init, run, steps, i);
      }
    } else {
      NotAtomic(c, init, bs, log);
    }
  }
}
