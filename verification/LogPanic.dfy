/**
When the log can run out.  With LOGSIZE = 3 * MAXOPBLOCKS, the tests in log_write
never fire exactly when log.size exceeds LOGSIZE (the header takes one of the
log.size blocks) and no call makes more than MAXOPBLOCKS log_write calls.
*/
module LogPanic {
  import opened Blocks
  import opened LogProtocol
  import opened LogProof
  import opened Seqs

  /** As in param.h, with calls allowed at least what begin_op sets aside for them. */
  ghost predicate Params(c: Config)
  {
    0 < c.maxOp <= c.budget && c.capacity == 3 * c.maxOp && 0 < c.size
  }

  /** Enough distinct blocks outside the log area to overfill the log. */
  ghost predicate Fillers(c: Config, bs: seq<int>)
  {
    |bs| == c.capacity + 2 && Distinct(bs) && forall i :: 0 <= i < |bs| ==> bs[i] in c.homes
  }

  /** How many blocks the log takes before log_write panics. */
  function Room(c: Config): int
  {
    if c.size <= c.capacity then c.size - 1 else c.capacity
  }

  /**
  Who logs the j-th block: call 0 its MAXOPBLOCKS, then calls 1 and 2 all but one of theirs,
  then the one that calls 1 and 2 have left, and then call 0 again.
  */
  function Writer(c: Config, j: nat): int
  {
    if j < c.maxOp then 0 else if j < 2 * c.maxOp - 1 then 1 else if j < 3 * c.maxOp - 2 then 2
    else if j == 3 * c.maxOp - 2 then 1 else if j == 3 * c.maxOp - 1 then 2 else 0
  }

  /** log_write calls made by call op when the first j blocks are logged. */
  function Share(c: Config, op: int, j: nat): nat
  {
    if j == 0 then 0 else Share(c, op, j - 1) + if Writer(c, j - 1) == op then 1 else 0
  }

  /** No call has logged more than MAXOPBLOCKS, and two could log one more before the log is full. */
  lemma {:induction false} Shares(c: Config, j: nat)
    requires Params(c) && j <= c.capacity
    ensures Share(c, 0, j) == if j < c.maxOp then j else c.maxOp
    ensures Share(c, 1, j) == if j <= c.maxOp then 0 else if j < 2 * c.maxOp then j - c.maxOp
      else if j <= 3 * c.maxOp - 2 then c.maxOp - 1 else c.maxOp
    ensures Share(c, 2, j) == if j < 2 * c.maxOp then 0 else if j <= 3 * c.maxOp - 2 then j - 2 * c.maxOp + 1
      else if j == 3 * c.maxOp - 1 then c.maxOp - 1 else c.maxOp
  {
    if j > 0 {
      Shares(c, j - 1);
    }
  }

  /** Three calls are running and have logged the first j fillers. */
  ghost predicate Filled(c: Config, init: map<int, Block>, bs: seq<int>, j: nat, s: State)
    requires j <= |bs|
  {
    && s.phase == Idle && !s.committing && !s.panicked && s.outstanding == 3 && s.hist == []
    && s.lh == bs[..j]
    && s.disk == Disk([], s.disk.log, init, c.after) && |s.disk.log| + 1 == c.size
    && (forall op :: 0 <= op < 3 ==> op in s.active && s.active[op] == Progress(Share(c, op, j), None))
    && (forall b :: b in s.cache ==> b in bs[..j])
    && (forall b :: b in s.cache ==> s.cache[b].busy.None?)
  }

  ghost predicate RunTo(c: Config, init: map<int, Block>, run: seq<State>, steps: seq<Step>, s: State)
  {
    IsRun(c, init, run, steps) && run[|run| - 1] == s
  }

  ghost predicate Joined(c: Config, run: seq<State>, steps: seq<Step>)
  {
    && |run| == |steps| + 1
    && forall i :: 0 <= i < |steps| ==> Next(c, run[i], run[i + 1], steps[i])
  }

  lemma Extend(c: Config, init: map<int, Block>, run: seq<State>, steps: seq<Step>, s: State,
               more: seq<State>, moreSteps: seq<Step>)
    requires RunTo(c, init, run, steps, s) && Joined(c, more, moreSteps) && more[0] == s
    ensures RunTo(c, init, run + more[1..], steps + moreSteps, more[|more| - 1])
  {
    hide Next, Init;
    var all, allSteps := run + more[1..], steps + moreSteps;
    forall i | 0 <= i < |allSteps| ensures Next(c, all[i], all[i + 1], allSteps[i]) {
      if i >= |steps| {
        assert all[i] == more[i - |steps|] && all[i + 1] == more[i + 1 - |steps|];
      }
    }
  }

  ghost function Start(c: Config, init: map<int, Block>, log: seq<Block>): State
  {
    State(Disk([], log, init, c.after), Idle, [], 0, false, map[], map[], false, 0, [], {}, {}, {})
  }

  ghost function Begin(s: State): State
  {
    s.(outstanding := s.outstanding + 1, active := s.active[s.nextOp := Progress(0, None)], nextOp := s.nextOp + 1)
  }

  /** Three calls get through begin_op one after the other. */
  lemma BeginThree(c: Config, init: map<int, Block>, bs: seq<int>, log: seq<Block>)
    returns (run: seq<State>, steps: seq<Step>, s: State)
    requires Params(c) && init.Keys == c.homes && |log| + 1 == c.size
    ensures RunTo(c, init, run, steps, s) && Filled(c, init, bs, 0, s)
  {
    var s0 := Start(c, init, log);
    var s1, s2 := Begin(s0), Begin(Begin(s0));
    s := Begin(s2);
    run, steps := [s0, s1, s2, s], [StBegin, StBegin, StBegin];
    assert Next(c, s0, s1, StBegin) && Next(c, s1, s2, StBegin) && Next(c, s2, s, StBegin);
  }

  /** Block b is read by call op. */
  ghost function Reading(s: State, b: int, op: OpId): State
    requires b in s.disk.home
  {
    s.(cache := s.cache[b := Buf(s.disk.home[b], false, Some(Call(op)), false)])
  }

  /** Call op is past the tests of log_write for b. */
  ghost function Passing(s: State, b: int, op: OpId): State
    requires op in s.active
  {
    s.(active := s.active[op := s.active[op].(logging := Some(b))])
  }

  /** Call op has put b into the log. */
  ghost function Logging(s: State, b: int, op: OpId): State
    requires op in s.active && b in s.cache
  {
    s.(lh := if b in s.lh then s.lh else s.lh + [b],
       cache := s.cache[b := s.cache[b].(dirty := true, touched := false)],
       active := s.active[op := Progress(s.active[op].used + 1, None)])
  }

  ghost function Releasing(s: State, b: int): State
    requires b in s.cache
  {
    s.(cache := s.cache[b := s.cache[b].(busy := None)])
  }

  /** A block that is not cached is read, logged and released by a call with budget left. */
  lemma LogOneSteps(c: Config, s: State, b: int, op: OpId)
    requires Running(s) && b in c.homes && b in s.disk.home && b !in s.cache && b !in s.lh && s.outstanding >= 1
    requires op in s.active && s.active[op].logging.None? && s.active[op].used < c.budget && !LogFull(c, s)
    ensures var s1 := Reading(s, b, op); var s2 := Passing(s1, b, op); var s3 := Logging(s2, b, op);
      Joined(c, [s, s1, s2, s3, Releasing(s3, b)],
             [StBread(b, Call(op)), StLogCheck(op, b), StLogAppend(op, b), StBrelse(b)])
  {
    var s1 := Reading(s, b, op);
    var s2 := Passing(s1, b, op);
    var s3 := Logging(s2, b, op);
    assert Next(c, s, s1, StBread(b, Call(op)));
    assert Next(c, s1, s2, StLogCheck(op, b));
    assert Next(c, s2, s3, StLogAppend(op, b));
    assert Next(c, s3, Releasing(s3, b), StBrelse(b));
  }

  ghost function LoggedOne(s: State, b: int, op: OpId): State
    requires b in s.disk.home && op in s.active
  {
    Releasing(Logging(Passing(Reading(s, b, op), b, op), b, op), b)
  }

  /** The next writer has budget left, and the log has room. */
  lemma FilledRoom(c: Config, init: map<int, Block>, bs: seq<int>, j: nat, b: int, s: State)
    requires Params(c) && Fillers(c, bs) && init.Keys == c.homes && j < Room(c) && Filled(c, init, bs, j, s)
    requires b == bs[j]
    ensures var op := Writer(c, j);
      && Running(s) && b !in s.cache && b !in s.lh && s.outstanding >= 1 && !LogFull(c, s)
      && op in s.active && s.active[op].logging.None? && s.active[op].used < c.budget
    ensures b !in bs[..j] && b in s.disk.home
  {
    assert b !in bs[..j];
    Shares(c, j);
  }

  lemma FilledNext(c: Config, init: map<int, Block>, bs: seq<int>, j: nat, s: State)
    requires j < |bs| && bs[j] !in bs[..j] && bs[j] in init && Filled(c, init, bs, j, s) && Writer(c, j) in s.active
    ensures Filled(c, init, bs, j + 1, LoggedOne(s, bs[j], Writer(c, j)))
  {
    assert bs[..j + 1] == bs[..j] + [bs[j]];
  }

  lemma LogOne(c: Config, init: map<int, Block>, bs: seq<int>, j: nat,
               run0: seq<State>, steps0: seq<Step>, s0: State)
    returns (run: seq<State>, steps: seq<Step>, s: State)
    requires Params(c) && Fillers(c, bs) && init.Keys == c.homes && j < Room(c)
    requires RunTo(c, init, run0, steps0, s0) && Filled(c, init, bs, j, s0)
    ensures RunTo(c, init, run, steps, s) && Filled(c, init, bs, j + 1, s)
  {
    hide Next, RunTo, Joined, Filled;
    var b, op := bs[j], Writer(c, j);
    FilledRoom(c, init, bs, j, b, s0);
    FilledNext(c, init, bs, j, s0);
    LogOneSteps(c, s0, b, op);
    var s1 := Reading(s0, b, op);
    var s2 := Passing(s1, b, op);
    var s3 := Logging(s2, b, op);
    s := LoggedOne(s0, b, op);
    var more, moreSteps :=
      [s0, s1, s2, s3, s], [StBread(b, Call(op)), StLogCheck(op, b), StLogAppend(op, b), StBrelse(b)];
    Extend(c, init, run0, steps0, s0, more, moreSteps);
    run, steps := run0 + more[1..], steps0 + moreSteps;
  }

  lemma {:induction false} Fill(c: Config, init: map<int, Block>, bs: seq<int>, log: seq<Block>, j: nat)
    returns (run: seq<State>, steps: seq<Step>, s: State)
    requires Params(c) && Fillers(c, bs) && init.Keys == c.homes && j <= Room(c) && |log| + 1 == c.size
    ensures RunTo(c, init, run, steps, s) && Filled(c, init, bs, j, s)
  {
    if j == 0 {
      run, steps, s := BeginThree(c, init, bs, log);
    } else {
      run, steps, s := Fill(c, init, bs, log, j - 1);
      run, steps, s := LogOne(c, init, bs, j - 1, run, steps, s);
    }
  }

  /** One block more: log_write panics although its call has budget left. */
  lemma Overrun(c: Config, init: map<int, Block>, bs: seq<int>, log: seq<Block>)
    returns (run: seq<State>, steps: seq<Step>)
    requires Params(c) && Fillers(c, bs) && init.Keys == c.homes && |log| + 1 == c.size
    requires c.size <= c.capacity || c.maxOp < c.budget
    ensures IsRun(c, init, run, steps) && run[|run| - 1].panicked
  {
    var j := Room(c);
    var run0, steps0, s0 := Fill(c, init, bs, log, j);
    var b, op := bs[j], Writer(c, j);
    Shares(c, j);
    var s1 := Reading(s0, b, op);
    var s2 := s1.(panicked := true);
    assert b !in bs[..j];
    var more, moreSteps := [s0, s1, s2], [StBread(b, Call(op)), StLogCheck(op, b)];
    assert Next(c, s0, s1, StBread(b, Call(op))) && Next(c, s1, s2, StLogCheck(op, b));
    Extend(c, init, run0, steps0, s0, more, moreSteps);
    run, steps := run0 + more[1..], steps0 + moreSteps;
  }

  ghost predicate CanPanic(c: Config, init: map<int, Block>)
  {
    exists run: seq<State>, steps: seq<Step> ::
      && IsRun(c, init, run, steps)
      && exists i :: 0 <= i < |run| && run[i].panicked
  }

  /** The log can panic exactly when it is too small or calls write more than begin_op sets aside. */
  lemma PanicIff(c: Config, init: map<int, Block>, bs: seq<int>, log: seq<Block>)
    requires Params(c) && Fillers(c, bs) && init.Keys == c.homes && |log| + 1 == c.size
    ensures CanPanic(c, init) <==> c.size <= c.capacity || c.maxOp < c.budget
  {
    if c.size <= c.capacity || c.maxOp < c.budget {
      var run, steps := Overrun(c, init, bs, log);
      assert run[|run| - 1].panicked;
    } else {
      forall run: seq<State>, steps: seq<Step>, i | IsRun(c, init, run, steps) && 0 <= i < |run|
        ensures !run[i].panicked
      {
        LogSpace(c, init, run, steps, i);
      }
    }
  }
}
