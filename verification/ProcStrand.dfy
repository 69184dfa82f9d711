/**
A wakeup that is lost: a process makes a condition true under its lock and exits without calling
wakeup, as a killed writer may in pipewrite, and the process that sleeps on the condition is stranded.
*/
module ProcStrand {
  import opened ProcMachine
  import opened ProcRace
  import opened ProcWakeups

  const NEVER := Thread(Dead, -1, -1, {}, -1, false)

  /** Two slots, one CPU, one lock 0 that guards channel 0. */
  ghost function Machine(init: Proc, child: Proc, ts: seq<Thread>, cpu: Cpu, lock: int, nextpid: int): State
  {
    State([init, child], ts, [cpu], lock, map[0 := -1], map[0 := false], map[0 := 0], nextpid)
  }

  const SCHED_OFF := Thread(Off(InSched), -1, -1, {}, -1, false)
  const NEW := Thread(Off(AfterFork), -1, -1, {}, -1, false)
  const CODE := Thread(Code, 0, -1, {}, -1, false)

  ghost function Boot(): State
  {
    Machine(Proc(Runnable, 1, -1, NoChan, true, false), Proc(Unused, 0, -1, NoChan, false, false),
            [NEW, NEVER, CODE], Cpu(2, -1, 0, true, false), -1, 2)
  }

  /** init is executing. */
  ghost function InitRuns(): State
  {
    Machine(Proc(Running, 1, -1, NoChan, true, false), Proc(Unused, 0, -1, NoChan, false, false),
            [CODE, NEVER, SCHED_OFF], Cpu(0, 0, 0, true, true), -1, 2)
  }

  /** init has forked. */
  ghost function Forked(): State
  {
    Machine(Proc(Running, 1, -1, NoChan, true, false), Proc(Runnable, 2, 0, NoChan, true, false),
            [CODE, NEW, SCHED_OFF], Cpu(0, 0, 0, true, true), -1, 3)
  }

  const INIT_OFF := Thread(Off(AfterSleep(0)), -1, -1, {}, -1, true)

  /** init has gone to sleep on channel 0, and its CPU is back in the scheduler. */
  ghost function InitSleeps(): State
  {
    Machine(Proc(Sleeping, 1, -1, Obj(0), true, false), Proc(Runnable, 2, 0, NoChan, true, false),
            [INIT_OFF, NEW, Thread(Resched, 0, -1, {}, -1, false)], Cpu(2, 0, 1, false, true), 0, 3)
  }

  /** The child is executing. */
  ghost function ChildRuns(): State
  {
    Machine(Proc(Sleeping, 1, -1, Obj(0), true, false), Proc(Running, 2, 0, NoChan, true, false),
            [INIT_OFF, CODE, SCHED_OFF], Cpu(1, 1, 0, true, true), -1, 3)
  }

  /** The scheduler, holding ptable.lock, switches to p, which has never run, and p leaves forkret. */
  lemma RunNew(run0: seq<State>, s: State, p: int) returns (run: seq<State>, s': State)
    requires Steps(run0, s) && |s.procs| == 2 && |s.threads| == 3 && |s.cpus| == 1 && 0 <= p < 2
    requires s.cpus[0].thread == 2 && s.threads[2].pc.SchedScan? && s.procs[p].state.Runnable? && s.threads[p] == NEW
    ensures Steps(run, s')
    ensures s' == s.(procs := s.procs[p := s.procs[p].(state := Running)],
                     threads := s.threads[2 := s.threads[2].(pc := Off(InSched), at := -1)][p := CODE],
                     cpus := [Pop(s.cpus[0].(cur := p, thread := p))], lock := -1)
  {
    hide Start;
    var s1 := SetProc(Go(s, 0, SchedGo(p)), p, s.procs[p].(state := Running))
              .(cpus := s.cpus[0 := s.cpus[0].(cur := p)]);
    assert SchedPick(s, s1, 0, p);
    run := Extend(run0, s, s1, 0, p, false);
    var s2 := s1.(cpus := s1.cpus[0 := s1.cpus[0].(thread := p)],
                  threads := s1.threads[2 := Me(s1, 0).(pc := Off(InSched), at := -1)]
                                       [p := s1.threads[p].(pc := Unlocking, at := 0)]);
    assert SwitchIn(s1, s2, 0);
    run := Extend(run, s1, s2, 0, 0, false);
    s' := Release(s2, 0, Code);
    assert Unlock(s2, s', 0);
    run := Extend(run, s2, s', 0, 0, false);
  }

  lemma ToInit() returns (run: seq<State>)
    ensures Steps(run, InitRuns())
  {
    var s0 := Boot();
    run := [s0];
    assert Start(s0);
    var s1 := Acquire(s0, 0, SchedScan);
    assert SchedStart(s0, s1, 0);
    run := Extend(run, s0, s1, 0, 0, false);
    var s2;
    run, s2 := RunNew(run, s1, 0);
    assert s2 == InitRuns();
  }

  lemma ToForked() returns (run: seq<State>)
    ensures Steps(run, Forked())
  {
    hide Start;
    var s0 := InitRuns();
    run := ToInit();
    var s1 := Acquire(s0, 0, Allocating);
    assert AllocStart(s0, s1, 0);
    run := Extend(run, s0, s1, 0, 0, false);
    var s2 := SetProc(Set(s1, 0, Me(s1, 0).(pc := Unlocking, np := 1)), 1,
                      s1.procs[1].(state := Embryo, pid := s1.nextpid)).(nextpid := s1.nextpid + 1);
    assert s1.procs[1].state.Unused?;
    assert AllocTake(s1, s2, 0, 1);
    run := Extend(run, s1, s2, 0, 1, false);
    var s3 := Release(s2, 0, Code);
    assert Unlock(s2, s3, 0);
    run := Extend(run, s2, s3, 0, 0, false);
    run := FillSlot(run, s3);
  }

  /** The rest of fork, once allocproc has a slot. */
  lemma FillSlot(run0: seq<State>, s3: State) returns (run: seq<State>)
    requires Steps(run0, s3)
    requires s3 == Machine(Proc(Running, 1, -1, NoChan, true, false), Proc(Embryo, 2, -1, NoChan, false, false),
                           [CODE.(np := 1), NEVER, SCHED_OFF], Cpu(0, 0, 0, true, true), -1, 3)
    ensures Steps(run, Forked())
  {
    hide Start;
    var s4 := SetProc(s3, 1, s3.procs[1].(kstack := true)).(threads := s3.threads[1 := NEW]);
    assert AllocStack(s3, s4, 0, 1, true);
    run := Extend(run0, s3, s4, 0, 1, true);
    var s5 := SetProc(s4, 1, s4.procs[1].(parent := 0));
    assert ForkParent(s4, s5, 0, 1);
    run := Extend(run, s4, s5, 0, 1, false);
    var s6 := Acquire(s5, 0, ForkReady);
    assert ForkLock(s5, s6, 0, 1);
    run := Extend(run, s5, s6, 0, 1, false);
    var s7 := SetProc(Set(s6, 0, Me(s6, 0).(pc := Unlocking, np := -1)), 1, s6.procs[1].(state := Runnable));
    assert ForkRun(s6, s7, 0);
    run := Extend(run, s6, s7, 0, 0, false);
    assert Unlock(s7, Forked(), 0);
    run := Extend(run, s7, Forked(), 0, 0, false);
  }

  lemma ToSleeping() returns (run: seq<State>)
    ensures Steps(run, InitSleeps())
  {
    hide Start;
    var s0 := Forked();
    run := ToForked();
    var s1 := Set(s0, 0, Me(s0, 0).(l := 0)).(lks := s0.lks[0 := 0], cpus := s0.cpus[0 := Push(s0.cpus[0])]);
    assert LkAcquire(s0, s1, 0, 0);
    run := Extend(run, s0, s1, 0, 0, false);
    var s2 := Go(s1, 0, Spin(0));
    assert SleepStart(s1, s2, 0, 0);
    run := Extend(run, s1, s2, 0, 0, false);
    var s3 := Acquire(s2, 0, Falling(0));
    assert SleepLock(s2, s3, 0);
    run := Extend(run, s2, s3, 0, 0, false);
    run := FallAsleep(run, s3);
  }

  lemma FallAsleep(run0: seq<State>, s3: State) returns (run: seq<State>)
    requires Steps(run0, s3)
    requires s3 == Forked().(threads := [Thread(Falling(0), 0, 0, {}, -1, false), NEW, SCHED_OFF],
                             cpus := [Cpu(0, 0, 2, false, true)], lock := 0, lks := map[0 := 0])
    ensures Steps(run, InitSleeps())
  {
    hide Start;
    var s4 := Set(s3, 0, Me(s3, 0).(pc := Sleepy(0, 0), l := -1))
              .(lks := s3.lks[0 := -1], cpus := s3.cpus[0 := Pop(s3.cpus[0])]);
    assert SleepRelease(s3, s4, 0);
    run := Extend(run0, s3, s4, 0, 0, false);
    var s5 := SetProc(Go(s4, 0, Switching(AfterSleep(0))), 0, s4.procs[0].(chan := Obj(0), state := Sleeping));
    assert SleepSet(s4, s5, 0);
    run := Extend(run, s4, s5, 0, 0, false);
    assert SwitchOut(s5, InitSleeps(), 0);
    run := Extend(run, s5, InitSleeps(), 0, 0, false);
  }

  lemma ToChild() returns (run: seq<State>)
    ensures Steps(run, ChildRuns())
  {
    hide Start;
    var s0 := InitSleeps();
    run := ToSleeping();
    var s1 := Go(s0, 0, SchedScan).(cpus := s0.cpus[0 := s0.cpus[0].(cur := -1)]);
    assert SchedBack(s0, s1, 0);
    run := Extend(run, s0, s1, 0, 0, false);
    var s2;
    run, s2 := RunNew(run, s1, 1);
    assert s2 == ChildRuns();
  }

  /** The child has made the condition true and is on its way out, owing the wakeup. */
  ghost function Owing(): State
  {
    ChildRuns().(threads := [INIT_OFF, Thread(Exiting, 0, -1, {0}, -1, false), SCHED_OFF],
                 cpus := [Cpu(1, 1, 1, false, true)], lock := 0, conds := map[0 := true])
  }

  lemma ToOwing() returns (run: seq<State>)
    ensures Steps(run, Owing())
  {
    hide Start;
    var s0 := ChildRuns();
    run := ToChild();
    var s1 := Set(s0, 0, Me(s0, 0).(l := 0)).(lks := s0.lks[0 := 0], cpus := s0.cpus[0 := Push(s0.cpus[0])]);
    assert LkAcquire(s0, s1, 0, 0);
    run := Extend(run, s0, s1, 0, 0, false);
    var s2 := Set(s1, 0, Me(s1, 0).(dirty := Me(s1, 0).dirty + {0})).(conds := s1.conds[0 := true]);
    assert Change(s1, s2, 0, 0, true);
    run := Extend(run, s1, s2, 0, 0, true);
    var s3 := Set(s2, 0, Me(s2, 0).(l := -1)).(lks := s2.lks[0 := -1], cpus := s2.cpus[0 := Pop(s2.cpus[0])]);
    assert LkRelease(s2, s3, 0);
    run := Extend(run, s2, s3, 0, 0, false);
    assert s3.lks == map[0 := -1] && s3.conds == map[0 := true] && {} + {0} == {0};
    assert Acquire(s3, 0, Exiting) == Owing();
    assert ExitStart(s3, Owing(), 0);
    run := Extend(run, s3, Owing(), 0, 0, false);
  }

  /** The child wakes nobody in wait and has no children to give away. */
  lemma ToGiven() returns (run: seq<State>, s: State)
    ensures Steps(run, s) && s == Go(Owing(), 0, ExitGiven)
  {
    hide Start;
    var s0 := Owing();
    run := ToOwing();
    var s1 := Go(s0, 0, ExitWoke);
    assert Woken(s0.procs, Self(0)) == s0.procs;
    assert ExitWake(s0, s1, 0);
    run := Extend(run, s0, s1, 0, 0, false);
    s := Go(s1, 0, ExitGiven);
    assert Reparented(s1.procs, 1) == s1.procs;
    assert ExitGive(s1, s, 0);
    run := Extend(run, s1, s, 0, 0, false);
  }

  /** init sleeps for ever on a condition that is true. */
  lemma DebtorExits() returns (run: seq<State>)
    ensures IsRun(run) && !NoneLost(run[|run| - 1])
  {
    hide Start;
    var s0;
    run, s0 := ToGiven();
    var s := SetProc(Go(s0, 0, Switching(AfterExit)), 1, s0.procs[1].(state := Zombie));
    assert ExitSet(s0, s, 0);
    run := Extend(run, s0, s, 0, 0, false);
    assert AsleepOn(s, 0, 0) && s.conds[0];
    assert forall t :: !Debtor(s, t, 0);
  }
}
