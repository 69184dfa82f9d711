/**
The race that sleep is written for does happen: a run in which the condition becomes true after
the sleeper has released its lock and before it is marked asleep.
*/
module ProcRace {
  import opened ProcMachine

  ghost predicate Steps(run: seq<State>, s: State)
  {
    IsRun(run) && run[|run| - 1] == s
  }

  lemma Extend(run: seq<State>, s: State, s': State, c: int, x: int, b: bool) returns (longer: seq<State>)
    requires Steps(run, s) && Step(s, s', c, x, b)
    ensures Steps(longer, s') && longer == run + [s']
  {
    hide Step, Start;
    assert Next(s, s');
    longer := run + [s'];
  }

  /** One process, two CPUs, one lock 0 that guards channel 0, whose condition is false. */
  ghost function First(): State
  {
    State([Proc(Runnable, 1, -1, NoChan, true, false)],
          [Thread(Off(AfterFork), -1, -1, {}, -1, false), Thread(Code, 0, -1, {}, -1, false),
           Thread(Code, 1, -1, {}, -1, false)],
          [Cpu(1, -1, 0, true, false), Cpu(2, -1, 0, true, false)],
          -1, map[0 := -1], map[0 := false], map[0 := 0], 2)
  }

  /** CPU 0 has switched to the process, which has taken lock 0. */
  ghost function Holding(): State
  {
    State([Proc(Running, 1, -1, NoChan, true, false)],
          [Thread(Code, 0, 0, {}, -1, false), Thread(Off(InSched), -1, -1, {}, -1, false),
           Thread(Code, 1, -1, {}, -1, false)],
          [Cpu(0, 0, 1, false, true), Cpu(2, -1, 0, true, false)],
          -1, map[0 := 0], map[0 := false], map[0 := 0], 2)
  }

  ghost predicate Raced(s: State)
  {
    && |s.procs| == 1 && |s.threads| == 3 && s.procs[0].state.Sleeping? && s.procs[0].chan == Obj(0)
    && 0 in s.conds && s.conds[0] && 0 in s.threads[2].dirty
  }

  /** CPU 0's scheduler has picked the process. */
  ghost function Picked(): State
  {
    State([Proc(Running, 1, -1, NoChan, true, false)],
          [Thread(Off(AfterFork), -1, -1, {}, -1, false), Thread(SchedGo(0), 0, -1, {}, -1, false),
           Thread(Code, 1, -1, {}, -1, false)],
          [Cpu(1, 0, 1, false, true), Cpu(2, -1, 0, true, false)],
          0, map[0 := -1], map[0 := false], map[0 := 0], 2)
  }

  lemma ToPicked() returns (run: seq<State>)
    ensures Steps(run, Picked())
  {
    var s0 := First();
    run := [s0];
    assert Start(s0);
    var s1 := Acquire(s0, 0, SchedScan);
    assert SchedStart(s0, s1, 0);
    run := Extend(run, s0, s1, 0, 0, false);
    assert SchedPick(s1, Picked(), 0, 0);
    run := Extend(run, s1, Picked(), 0, 0, false);
  }

  lemma ToHolding() returns (run: seq<State>)
    ensures Steps(run, Holding())
  {
    hide Start;
    var s2 := Picked();
    run := ToPicked();
    var s3 := s2.(cpus := s2.cpus[0 := s2.cpus[0].(thread := 0)],
                  threads := s2.threads[1 := Me(s2, 0).(pc := Off(InSched), at := -1)]
                                       [0 := s2.threads[0].(pc := Unlocking, at := 0)]);
    assert SwitchIn(s2, s3, 0);
    run := Extend(run, s2, s3, 0, 0, false);
    var s4 := Release(s3, 0, Code);
    assert Unlock(s3, s4, 0);
    run := Extend(run, s3, s4, 0, 0, false);
    assert LkAcquire(s4, Holding(), 0, 0);
    run := Extend(run, s4, Holding(), 0, 0, false);
  }

  /** The process sleeps on channel 0, whose condition is true; CPU 1 has yet to call wakeup. */
  lemma RaceHappens() returns (run: seq<State>)
    ensures IsRun(run) && Raced(run[|run| - 1])
  {
    var s0 := Holding();
    run := ToHolding();
    var s1 := Go(s0, 0, Spin(0));
    assert SleepStart(s0, s1, 0, 0);
    run := Extend(run, s0, s1, 0, 0, false);
    var s2 := Acquire(s1, 0, Falling(0));
    assert SleepLock(s1, s2, 0);
    run := Extend(run, s1, s2, 0, 0, false);
    var s3 := Set(s2, 0, Me(s2, 0).(pc := Sleepy(0, 0), l := -1))
              .(lks := s2.lks[0 := -1], cpus := s2.cpus[0 := Pop(s2.cpus[0])]);
    assert SleepRelease(s2, s3, 0);
    run := Extend(run, s2, s3, 0, 0, false);
    run := Waker(run, s3);
  }

  /** CPU 1, in an interrupt on its scheduler's stack, changes the condition; then CPU 0 falls asleep. */
  lemma Waker(run0: seq<State>, s3: State) returns (run: seq<State>)
    requires Steps(run0, s3) && |s3.threads| == 3 && |s3.procs| == 1 && |s3.cpus| == 2 && s3.cpus[0].thread == 0
    requires s3.cpus[1].thread == 2
    requires s3.threads[0].pc == Sleepy(0, 0) && s3.threads[2] == Thread(Code, 1, -1, {}, -1, false)
    requires 0 in s3.lks && s3.lks[0] == -1 && 0 in s3.conds && 0 in s3.guard && s3.guard[0] == 0
    ensures IsRun(run) && Raced(run[|run| - 1])
  {
    var s4 := Set(s3, 1, Me(s3, 1).(l := 0)).(lks := s3.lks[0 := 1], cpus := s3.cpus[1 := Push(s3.cpus[1])]);
    assert LkAcquire(s3, s4, 1, 0);
    run := Extend(run0, s3, s4, 1, 0, false);
    var s5 := Set(s4, 1, Me(s4, 1).(dirty := Me(s4, 1).dirty + {0})).(conds := s4.conds[0 := true]);
    assert Change(s4, s5, 1, 0, true);
    run := Extend(run, s4, s5, 1, 0, true);
    var s6 := SetProc(Go(s5, 0, Switching(AfterSleep(0))), 0, s5.procs[0].(chan := Obj(0), state := Sleeping));
    assert SleepSet(s5, s6, 0);
    run := Extend(run, s5, s6, 0, 0, false);
  }
}
